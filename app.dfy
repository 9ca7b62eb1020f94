/** The application shell: the starting card, the edit form's fields, and
    the two handlers that replace the card record (a form edit and a logo
    upload). */
module App {
  import opened Types
  import VCard

  /** The card shown before any edit. */
  const InitialCardData := CardData(
    "Alexander Wijaya",
    "Chief Technology Officer",
    "PT Seraphim Digital Technology",
    "+62 812 3456 7890",
    "alexander@seraphim.tech",
    Some("info@seraphim.tech"),
    "www.seraphim.tech",
    Some("linkedin.com/in/alexander-seraphim"),
    Some("github.com/seraphim-tech"),
    "Cyber 2 Tower, Jl. H.R. Rasuna Said Blok X-5, Jakarta Selatan 12950",
    "https://files.catbox.moe/kxl80z.png",
    Some("#ffffff"),
    Some("#546E7A")
  )

  /** The starting card has every required field filled in and every
      optional field set to a non-empty value. */
  lemma InitialCardDataComplete()
    ensures var c := InitialCardData;
      && c.name != "" && c.title != "" && c.company != "" && c.phone != ""
      && c.email != "" && c.website != "" && c.address != "" && c.logoUrl != ""
      && Truthy(c.generalEmail) && Truthy(c.linkedin) && Truthy(c.github)
      && Truthy(c.frontBgColor) && Truthy(c.backBgColor)
  {
  }

  /** The starting card's name is "Alexander Wijaya": its `N` value is
      `Wijaya;Alexander` and it downloads as `Alexander_Wijaya_Contact.vcf`. */
  lemma InitialCardExport(given: string, family: string)
    requires given == "Alexander" && family == "Wijaya"
    ensures InitialCardData.name == given + " " + family
    ensures VCard.NameValue(given + " " + family) == family + ";" + given
    ensures VCard.DownloadFilename(given + " " + family) == given + "_" + family + "_Contact.vcf"
  {
    VCard.FilenameTwoWords(given, family);
    VCard.NameValueTwoWords(given, family);
  }

  /** The fields the edit form can change, one per form control. */
  datatype Field =
    | FrontBgColor | BackBgColor | Name | Title | Company | Phone | Email
    | GeneralEmail | Website | Linkedin | Github | Address

  /** The form control's `name` attribute: the record property it edits.
      No control edits `logoUrl`. */
  function FieldName(f: Field): (name: string)
    ensures name != "" && name != "logoUrl"
  {
    match f
    case FrontBgColor => "frontBgColor"
    case BackBgColor => "backBgColor"
    case Name => "name"
    case Title => "title"
    case Company => "company"
    case Phone => "phone"
    case Email => "email"
    case GeneralEmail => "generalEmail"
    case Website => "website"
    case Linkedin => "linkedin"
    case Github => "github"
    case Address => "address"
  }

  /** The form's controls, top to bottom. */
  const FormFields: seq<Field> :=
    [FrontBgColor, BackBgColor, Name, Title, Company, Phone, Email,
     GeneralEmail, Website, Linkedin, Github, Address]

  /** The form field a control name refers to, if any. */
  function FieldNamed(s: string): (r: Option<Field>)
    ensures r.Some? ==> FieldName(r.value) == s
    ensures r.None? ==> forall f :: FieldName(f) != s
  {
    if s == "frontBgColor" then Some(FrontBgColor)
    else if s == "backBgColor" then Some(BackBgColor)
    else if s == "name" then Some(Name)
    else if s == "title" then Some(Title)
    else if s == "company" then Some(Company)
    else if s == "phone" then Some(Phone)
    else if s == "email" then Some(Email)
    else if s == "generalEmail" then Some(GeneralEmail)
    else if s == "website" then Some(Website)
    else if s == "linkedin" then Some(Linkedin)
    else if s == "github" then Some(Github)
    else if s == "address" then Some(Address)
    else None
  }

  /** Every field has its own control name, listed once in the form, and
      `logoUrl` is not one of them: the logo changes only by upload. */
  lemma EditableFieldNames(f: Field)
    ensures f in FormFields
    ensures FieldNamed(FieldName(f)) == Some(f)
    ensures FieldName(f) != "logoUrl"
    ensures |FormFields| == 12
  {
    var r := FieldNamed(FieldName(f));
    assert r.Some?;
    assert FieldName(r.value) == FieldName(f);
  }

  /** The stored value of a field: required fields are always present. */
  function Get(c: CardData, f: Field): Option<string>
  {
    match f
    case FrontBgColor => c.frontBgColor
    case BackBgColor => c.backBgColor
    case Name => Some(c.name)
    case Title => Some(c.title)
    case Company => Some(c.company)
    case Phone => Some(c.phone)
    case Email => Some(c.email)
    case GeneralEmail => c.generalEmail
    case Website => Some(c.website)
    case Linkedin => c.linkedin
    case Github => c.github
    case Address => Some(c.address)
  }

  /** Two records that agree on every form field and on the logo are equal. */
  lemma RecordsAgree(c: CardData, d: CardData)
    requires forall f :: Get(c, f) == Get(d, f)
    requires c.logoUrl == d.logoUrl
    ensures c == d
  {
    assert Get(c, Name) == Get(d, Name) && Get(c, Title) == Get(d, Title);
    assert Get(c, Company) == Get(d, Company) && Get(c, Phone) == Get(d, Phone);
    assert Get(c, Email) == Get(d, Email) && Get(c, GeneralEmail) == Get(d, GeneralEmail);
    assert Get(c, Website) == Get(d, Website) && Get(c, Linkedin) == Get(d, Linkedin);
    assert Get(c, Github) == Get(d, Github) && Get(c, Address) == Get(d, Address);
    assert Get(c, FrontBgColor) == Get(d, FrontBgColor) && Get(c, BackBgColor) == Get(d, BackBgColor);
  }

  /** `{ ...prev, [name]: value }`: the record with one field set to the
      control's value and every other property kept. */
  function SetField(c: CardData, f: Field, v: string): (r: CardData)
    ensures Get(r, f) == Some(v)
    ensures forall g :: g != f ==> Get(r, g) == Get(c, g)
    ensures r.logoUrl == c.logoUrl
  {
    match f
    case FrontBgColor => c.(frontBgColor := Some(v))
    case BackBgColor => c.(backBgColor := Some(v))
    case Name => c.(name := v)
    case Title => c.(title := v)
    case Company => c.(company := v)
    case Phone => c.(phone := v)
    case Email => c.(email := v)
    case GeneralEmail => c.(generalEmail := Some(v))
    case Website => c.(website := v)
    case Linkedin => c.(linkedin := Some(v))
    case Github => c.(github := Some(v))
    case Address => c.(address := v)
  }

  /** Setting a field to the value it already has changes nothing. */
  lemma SetFieldSameValue(c: CardData, f: Field, v: string)
    requires Get(c, f) == Some(v)
    ensures SetField(c, f, v) == c
  {
    RecordsAgree(SetField(c, f, v), c);
  }

  /** The last edit of a field wins; repeating an edit equals doing it once. */
  lemma SetFieldTwice(c: CardData, f: Field, v: string, w: string)
    ensures SetField(SetField(c, f, v), f, w) == SetField(c, f, w)
    ensures SetField(SetField(c, f, v), f, v) == SetField(c, f, v)
  {
    RecordsAgree(SetField(SetField(c, f, v), f, w), SetField(c, f, w));
    RecordsAgree(SetField(SetField(c, f, v), f, v), SetField(c, f, v));
  }

  /** Edits of two different fields can be made in either order. */
  lemma SetFieldCommute(c: CardData, f: Field, g: Field, v: string, w: string)
    requires f != g
    ensures SetField(SetField(c, f, v), g, w) == SetField(SetField(c, g, w), f, v)
  {
    RecordsAgree(SetField(SetField(c, f, v), g, w), SetField(SetField(c, g, w), f, v));
  }

  /** The record with a newly uploaded logo; every form field is kept. */
  function WithLogo(c: CardData, url: string): (r: CardData)
    ensures r.logoUrl == url
    ensures forall f :: Get(r, f) == Get(c, f)
  {
    c.(logoUrl := url)
  }

  /** The optional fields whose control shows `''` when the field is absent. */
  predicate ShownEmptyWhenAbsent(f: Field)
  {
    f == GeneralEmail || f == Linkedin || f == Github
  }

  /** The `value` a form control displays; `None` is an undefined value,
      which only a colour control can get. */
  function FormValue(c: CardData, f: Field): (shown: Option<string>)
    ensures ShownEmptyWhenAbsent(f) ==> shown.Some? && (shown.value != "" <==> Truthy(Get(c, f)))
    ensures ShownEmptyWhenAbsent(f) && Truthy(Get(c, f)) ==> shown == Get(c, f)
    ensures !ShownEmptyWhenAbsent(f) ==> shown == Get(c, f)
    ensures f != FrontBgColor && f != BackBgColor ==> shown.Some?
  {
    if ShownEmptyWhenAbsent(f) then Some(OrEmpty(Get(c, f))) else Get(c, f)
  }

  /** An absent optional field is shown as `''`; clearing it stores `''`,
      which shows the same and gives the same vCard text as absence. */
  lemma ClearedOptionalLikeAbsent(c: CardData, f: Field)
    requires ShownEmptyWhenAbsent(f) && Get(c, f) == None
    ensures FormValue(c, f) == Some("")
    ensures FormValue(SetField(c, f, ""), f) == Some("")
    ensures SetField(c, f, "") != c
    ensures VCard.Text(SetField(c, f, "")) == VCard.Text(c)
  {
    VCard.TextDependsOnContactFields(SetField(c, f, ""), c);
  }

  /** The application's state: the card being shown and whether the edit
      panel is open. */
  class AppState {
    var cardData: CardData
    var isEditing: bool

    constructor ()
      ensures cardData == InitialCardData && !isEditing
    {
      cardData := InitialCardData;
      isEditing := false;
    }

    /** A form control changed: its field takes the control's value. */
    method HandleInputChange(f: Field, value: string)
      modifies this
      ensures cardData == SetField(old(cardData), f, value)
      ensures isEditing == old(isEditing)
    {
      cardData := SetField(cardData, f, value);
    }

    /** The logo file input changed. `objectUrl` is the object URL made for
        the first selected file, or `None` when no file was selected. */
    method HandleLogoUpload(objectUrl: Option<string>)
      modifies this
      ensures objectUrl.Some? ==> cardData == WithLogo(old(cardData), objectUrl.value)
      ensures objectUrl.None? ==> cardData == old(cardData)
      ensures isEditing == old(isEditing)
    {
      if objectUrl.Some? {
        cardData := WithLogo(cardData, objectUrl.value);
      }
    }

    /** The settings button opens the edit panel. */
    method OpenEditor()
      modifies this
      ensures isEditing && cardData == old(cardData)
    {
      isEditing := true;
    }

    /** The close and save buttons close it; edits are already applied. */
    method CloseEditor()
      modifies this
      ensures !isEditing && cardData == old(cardData)
    {
      isEditing := false;
    }
  }
}
