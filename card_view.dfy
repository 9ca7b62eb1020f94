/** The card component's view state (which face shows, detail or compact
    mode, the generated bio, the share dialog) and what the back face
    renders from it. */
module CardView {
  import opened Types

  /** The component's state fields, as one value. */
  datatype ViewState = ViewState(
    isFlipped: bool,
    isCompact: bool,
    bio: string,
    isLoadingBio: bool,
    showShareModal: bool
  )

  /** A freshly mounted card: front face, detail mode, no bio, dialog closed. */
  const Initial := ViewState(false, false, "", false, false)

  /** Turning the card over changes only which face is up. */
  function Flip(s: ViewState): (r: ViewState)
    ensures r.isFlipped != s.isFlipped
    ensures r.(isFlipped := s.isFlipped) == s
  {
    s.(isFlipped := !s.isFlipped)
  }

  /** Switching between detail and compact mode changes only the mode. */
  function ToggleCompact(s: ViewState): (r: ViewState)
    ensures r.isCompact != s.isCompact
    ensures r.(isCompact := s.isCompact) == s
  {
    s.(isCompact := !s.isCompact)
  }

  /** A bio request has been sent: the button shows its busy state. */
  function StartBio(s: ViewState): (r: ViewState)
    ensures r.isLoadingBio
    ensures r.(isLoadingBio := s.isLoadingBio) == s
  {
    s.(isLoadingBio := true)
  }

  /** The bio request answered: its text is stored and the busy state ends. */
  function FinishBio(s: ViewState, generated: string): (r: ViewState)
    ensures r.bio == generated && !r.isLoadingBio
    ensures r.(bio := s.bio, isLoadingBio := s.isLoadingBio) == s
  {
    s.(bio := generated, isLoadingBio := false)
  }

  /** Turning the card over twice restores the state. */
  lemma FlipTwice(s: ViewState)
    ensures Flip(Flip(s)) == s
  {
  }

  /** Switching the mode twice restores the state. */
  lemma ToggleCompactTwice(s: ViewState)
    ensures ToggleCompact(ToggleCompact(s)) == s
  {
  }

  /** Flipping and switching the mode are independent of each other. */
  lemma FlipToggleCommute(s: ViewState)
    ensures Flip(ToggleCompact(s)) == ToggleCompact(Flip(s))
  {
  }

  /** The face turned towards the viewer. */
  function VisibleSide(s: ViewState): (side: CardSide)
    ensures side == Back <==> s.isFlipped
  {
    if s.isFlipped then Back else Front
  }

  /** Each flip shows the other face. */
  lemma FlipShowsOtherSide(s: ViewState)
    ensures VisibleSide(Flip(s)) != VisibleSide(s)
    ensures VisibleSide(Flip(Flip(s))) == VisibleSide(s)
  {
    FlipTwice(s);
  }

  /** The contact rows of the back face. */
  datatype Row = PhoneRow | EmailRow | GeneralEmailRow | WebsiteRow | LinkedinRow | GithubRow | AddressRow

  /** The rows the back face shows, top to bottom. */
  function VisibleRows(data: CardData, isCompact: bool): (rows: seq<Row>)
    ensures PhoneRow in rows && EmailRow in rows && WebsiteRow in rows && AddressRow in rows
    ensures GeneralEmailRow in rows <==> !isCompact && Truthy(data.generalEmail)
    ensures LinkedinRow in rows <==> !isCompact && Truthy(data.linkedin)
    ensures GithubRow in rows <==> !isCompact && Truthy(data.github)
    ensures rows[0] == PhoneRow && rows[|rows| - 1] == AddressRow
  {
    [PhoneRow, EmailRow]
    + (if !isCompact && Truthy(data.generalEmail) then [GeneralEmailRow] else [])
    + [WebsiteRow]
    + (if !isCompact && Truthy(data.linkedin) then [LinkedinRow] else [])
    + (if !isCompact && Truthy(data.github) then [GithubRow] else [])
    + [AddressRow]
  }

  /** Position of each row in the back face's markup, top to bottom. */
  function RowRank(row: Row): nat
  {
    match row
    case PhoneRow => 0
    case EmailRow => 1
    case GeneralEmailRow => 2
    case WebsiteRow => 3
    case LinkedinRow => 4
    case GithubRow => 5
    case AddressRow => 6
  }

  /** The rows appear in markup order, each at most once. */
  lemma VisibleRowsOrdered(data: CardData, isCompact: bool)
    ensures var rows := VisibleRows(data, isCompact);
      forall i, j :: 0 <= i < j < |rows| ==> RowRank(rows[i]) < RowRank(rows[j])
  {
    var g := !isCompact && Truthy(data.generalEmail);
    var l := !isCompact && Truthy(data.linkedin);
    var h := !isCompact && Truthy(data.github);
    RanksIncrease(g, l, h);
    assert VisibleRows(data, isCompact) == [PhoneRow, EmailRow]
      + (if g then [GeneralEmailRow] else [])
      + [WebsiteRow]
      + (if l then [LinkedinRow] else [])
      + (if h then [GithubRow] else [])
      + [AddressRow];
  }

  lemma RanksIncrease(g: bool, l: bool, h: bool)
    ensures var rows := [PhoneRow, EmailRow]
      + (if g then [GeneralEmailRow] else [])
      + [WebsiteRow]
      + (if l then [LinkedinRow] else [])
      + (if h then [GithubRow] else [])
      + [AddressRow];
      forall i, j :: 0 <= i < j < |rows| ==> RowRank(rows[i]) < RowRank(rows[j])
  {
  }

  /** In detail mode, with every optional field set, all seven rows show in
      markup order. */
  lemma DetailShowsAllRows(data: CardData)
    requires Truthy(data.generalEmail) && Truthy(data.linkedin) && Truthy(data.github)
    ensures VisibleRows(data, false)
      == [PhoneRow, EmailRow, GeneralEmailRow, WebsiteRow, LinkedinRow, GithubRow, AddressRow]
  {
  }

  /** The bio area under the contact rows. */
  datatype BioArea =
    | NoBioArea
    | GenerateButton(disabled: bool, caption: string)
    | BioQuote(text: string)

  /** Hidden in compact mode; otherwise the stored bio, or, while there is
      none, the button that asks for one (disabled and relabelled while a
      request is out). */
  function BioAreaOf(s: ViewState): (area: BioArea)
    ensures area == NoBioArea <==> s.isCompact
    ensures !s.isCompact && s.bio != "" ==> area == BioQuote(s.bio)
    ensures area.GenerateButton? ==> s.bio == "" && area.disabled == s.isLoadingBio
  {
    if s.isCompact then NoBioArea
    else if s.bio == "" then
      GenerateButton(s.isLoadingBio,
        if s.isLoadingBio then "Sedang membuat profil..." else "Buat Profil Singkat (AI)")
    else BioQuote(s.bio)
  }

  /** A freshly mounted card shows its front face, in detail mode, with the
      bio request button enabled and the share dialog closed. */
  lemma InitialView()
    ensures VisibleSide(Initial) == Front && !Initial.isCompact && !Initial.showShareModal
    ensures BioAreaOf(Initial) == GenerateButton(false, "Buat Profil Singkat (AI)")
  {
  }

  /** Compact mode shows only the phone, email, website and address rows,
      and no bio area. */
  lemma CompactShowsEssentials(data: CardData, s: ViewState)
    requires s.isCompact
    ensures VisibleRows(data, s.isCompact) == [PhoneRow, EmailRow, WebsiteRow, AddressRow]
    ensures BioAreaOf(s) == NoBioArea
  {
  }

  /** In detail mode the bio area is never hidden: a stored bio is quoted,
      and otherwise the request button is offered, disabled exactly while a
      request is out. */
  lemma DetailShowsBioArea(s: ViewState)
    requires !s.isCompact
    ensures BioAreaOf(s) != NoBioArea
    ensures s.bio != "" ==> BioAreaOf(s) == BioQuote(s.bio)
    ensures s.bio == "" ==> BioAreaOf(s).GenerateButton? && BioAreaOf(s).disabled == s.isLoadingBio
  {
  }

  /** Once a request has answered with a non-empty text, the detail view
      quotes it and the button is gone. */
  lemma FinishedBioIsQuoted(s: ViewState, generated: string)
    requires !s.isCompact && generated != ""
    ensures BioAreaOf(FinishBio(StartBio(s), generated)) == BioQuote(generated)
  {
  }

  /** Front face background: the chosen colour, or white when it is empty or absent. */
  function FrontColor(data: CardData): (colour: string)
    ensures colour != ""
    ensures Truthy(data.frontBgColor) ==> colour == data.frontBgColor.value
    ensures !Truthy(data.frontBgColor) ==> colour == "#ffffff"
  {
    OrDefault(data.frontBgColor, "#ffffff")
  }

  /** Back face background: the chosen colour, or blue grey when it is empty or absent. */
  function BackColor(data: CardData): (colour: string)
    ensures colour != ""
    ensures Truthy(data.backBgColor) ==> colour == data.backBgColor.value
    ensures !Truthy(data.backBgColor) ==> colour == "#546E7A"
  {
    OrDefault(data.backBgColor, "#546E7A")
  }

  /** The component's mutable state, one field per modelled state hook
      (`linkCopied`, used only by sharing, is not modelled). */
  class CardViewState {
    var isFlipped: bool
    var isCompact: bool
    var bio: string
    var isLoadingBio: bool
    var showShareModal: bool

    ghost function State(): ViewState
      reads this
    {
      ViewState(isFlipped, isCompact, bio, isLoadingBio, showShareModal)
    }

    constructor ()
      ensures State() == Initial
    {
      isFlipped, isCompact, bio, isLoadingBio, showShareModal := false, false, "", false, false;
    }

    /** Clicking the card, or the "turn over" button. */
    method HandleFlip()
      modifies this
      ensures State() == Flip(old(State()))
    {
      isFlipped := !isFlipped;
    }

    /** The detail/compact switch on the back face. */
    method ToggleViewMode()
      modifies this
      ensures State() == ToggleCompact(old(State()))
    {
      isCompact := !isCompact;
    }

    /** The bio button was pressed; the request is now out. */
    method BeginBioRequest()
      modifies this
      ensures State() == StartBio(old(State()))
    {
      isLoadingBio := true;
    }

    /** The bio request answered with `generated` (the generator answers with
        a fixed sentence when it fails, so every request ends here). */
    method CompleteBioRequest(generated: string)
      modifies this
      ensures State() == FinishBio(old(State()), generated)
    {
      bio := generated;
      isLoadingBio := false;
    }

    /** The share button opens the share dialog. */
    method OpenShareModal()
      modifies this
      ensures State() == old(State()).(showShareModal := true)
    {
      showShareModal := true;
    }

    /** The backdrop or the close button closes it. */
    method CloseShareModal()
      modifies this
      ensures State() == old(State()).(showShareModal := false)
    {
      showShareModal := false;
    }

    /** The rows the back face shows for `data` in the current mode; this
        reads the mode off the object, and in compact mode there are four. */
    method Rows(data: CardData) returns (rows: seq<Row>)
      ensures rows == VisibleRows(data, isCompact)
      ensures isCompact ==> |rows| == 4
    {
      rows := VisibleRows(data, isCompact);
      if isCompact {
        CompactShowsEssentials(data, State());
      }
    }
  }
}
