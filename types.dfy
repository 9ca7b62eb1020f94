/** The contact record shown on the business card, and the two card sides.
    Optional properties of the record are `Option<string>`: `None` is an
    absent (undefined) property. */
module Types {

  datatype Option<+T> = None | Some(value: T)

  /** A card's contact record: eight required text fields and five optional ones. */
  datatype CardData = CardData(
    name: string,
    title: string,
    company: string,
    phone: string,
    email: string,
    generalEmail: Option<string>,
    website: string,
    linkedin: Option<string>,
    github: Option<string>,
    address: string,
    logoUrl: string,
    frontBgColor: Option<string>,
    backBgColor: Option<string>
  )

  /** JavaScript truthiness of an optional string: an absent value and the
      empty string are both falsy. */
  predicate Truthy(o: Option<string>)
  {
    o.Some? && o.value != ""
  }

  /** The two falsy optional strings are the absent one and the empty one;
      every other value is truthy. */
  lemma FalsyValues(o: Option<string>)
    ensures !Truthy(None) && !Truthy(Some(""))
    ensures !Truthy(o) ==> o == None || o == Some("")
  {
  }

  /** `o || ''`: the value when truthy, the empty string otherwise. */
  function OrEmpty(o: Option<string>): (r: string)
    ensures Truthy(o) <==> r != ""
    ensures Truthy(o) ==> r == o.value
  {
    if Truthy(o) then o.value else ""
  }

  /** `a || b` on strings: the first operand when truthy, otherwise the fallback. */
  function OrDefault(o: Option<string>, fallback: string): (r: string)
    ensures Truthy(o) ==> r == o.value
    ensures !Truthy(o) ==> r == fallback
    ensures fallback != "" ==> r != ""
  {
    if Truthy(o) then o.value else fallback
  }

  /** The two faces of a card, with their string values. */
  datatype CardSide = Front | Back {
    function Value(): string
    {
      match this
      case Front => "front"
      case Back => "back"
    }
  }

  /** Reading a side back from its string value. */
  function SideOf(s: string): (r: Option<CardSide>)
    ensures r.Some? ==> r.value.Value() == s
    ensures r.None? ==> s != Front.Value() && s != Back.Value()
  {
    if s == "front" then Some(Front)
    else if s == "back" then Some(Back)
    else None
  }

  /** The two sides carry distinct values, and each value names its own side. */
  lemma CardSideValues(side: CardSide)
    ensures SideOf(side.Value()) == Some(side)
    ensures Front.Value() != Back.Value()
  {
  }
}
