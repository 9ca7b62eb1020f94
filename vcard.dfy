/** The vCard 3.0 text and the download file name built by the card's
    "save contact" action (RFC 2426). The text follows the component's
    template, not the full escaping grammar of section 4 of RFC 2426: only
    commas in the address are escaped. */
module VCard {
  import opened Types
  import opened JsText

  /** The `N` value before its `;;;` suffix: the name split on single
      spaces, the pieces reversed and joined with `;`. Each space gives way
      to one `;`, so the value is exactly as long as the name. */
  function NameValue(name: string): (v: string)
    ensures |v| == |name|
  {
    var pieces := Split(name, ' ');
    SplitTotalLength(name, ' ');
    ReverseTotalLength(pieces);
    Join(Reverse(pieces), ';')
  }

  /** A line present only when the optional field is truthy; otherwise the
      template leaves an empty line in its place. */
  function OptionalLine(prefix: string, field: Option<string>): (line: string)
    ensures line != "" <==> Truthy(field)
    ensures Truthy(field) ==> line == prefix + field.value
  {
    if Truthy(field) then prefix + field.value else ""
  }

  /** The `ADR` line: the address, commas escaped, as the street part of a
      work address; the other six address parts are left empty. */
  function AddressLine(address: string): (line: string)
    ensures |line| == 16 + |address| + CountChar(address, ',') + 4
    ensures line[..16] == "ADR;TYPE=WORK:;;" && line[|line| - 4..] == ";;;;"
  {
    var line := "ADR;TYPE=WORK:;;" + EscapeCommas(address) + ";;;;";
    assert line[..16] == "ADR;TYPE=WORK:;;";
    assert line[|line| - 4..] == ";;;;";
    line
  }

  /** The fourteen lines of the template, in order: fixed first, second and
      last lines, and optional lines left empty when their field is falsy. */
  function Lines(c: CardData): (ls: seq<string>)
    ensures |ls| == 14
    ensures ls[0] == "BEGIN:VCARD" && ls[1] == "VERSION:3.0" && ls[13] == "END:VCARD"
    ensures ls[8] != "" <==> Truthy(c.generalEmail)
    ensures ls[11] != "" <==> Truthy(c.linkedin)
    ensures ls[12] != "" <==> Truthy(c.github)
  {
    [ "BEGIN:VCARD",
      "VERSION:3.0",
      "FN:" + c.name,
      "N:" + NameValue(c.name) + ";;;",
      "ORG:" + c.company,
      "TITLE:" + c.title,
      "TEL;TYPE=CELL:" + c.phone,
      "EMAIL;TYPE=WORK,INTERNET:" + c.email,
      OptionalLine("EMAIL;TYPE=GEN,INTERNET:", c.generalEmail),
      "URL:" + c.website,
      AddressLine(c.address),
      OptionalLine("X-SOCIALPROFILE;type=linkedin:", c.linkedin),
      OptionalLine("X-SOCIALPROFILE;type=github:", c.github),
      "END:VCARD" ]
  }

  /** The vCard document: the template's lines separated by line feeds. It
      opens with the `BEGIN:VCARD` line and holds at least the thirteen line
      feeds between the fourteen lines. */
  function Text(c: CardData): (t: string)
    ensures |t| > 11 && t[..11] == "BEGIN:VCARD" && t[11] == '\n'
    ensures CountChar(t, '\n') >= 13
  {
    var ls := Lines(c);
    JoinCountSeparator(ls, '\n');
    JoinHead(ls, '\n');
    Join(ls, '\n')
  }

  /** No field that reaches the text holds a line feed. */
  predicate NoLineBreaks(c: CardData)
  {
    && '\n' !in c.name && '\n' !in c.company && '\n' !in c.title
    && '\n' !in c.phone && '\n' !in c.email && '\n' !in c.website
    && '\n' !in c.address && '\n' !in OrEmpty(c.generalEmail)
    && '\n' !in OrEmpty(c.linkedin) && '\n' !in OrEmpty(c.github)
  }

  lemma NameValueKeepsAbsent(name: string, e: char)
    requires e !in name && e != ';'
    ensures e !in NameValue(name)
  {
    var rev := Reverse(Split(name, ' '));
    SplitKeepsAbsent(name, ' ', e);
    JoinKeepsAbsent(rev, ';', e);
  }

  lemma LinesWithoutBreaks(c: CardData)
    requires NoLineBreaks(c)
    ensures forall i :: 0 <= i < |Lines(c)| ==> '\n' !in Lines(c)[i]
  {
    forall i | 0 <= i < |Lines(c)|
      ensures '\n' !in Lines(c)[i]
    {
      LineWithoutBreak(c, i);
    }
  }

  lemma LineWithoutBreak(c: CardData, i: nat)
    requires NoLineBreaks(c) && i < 14
    ensures '\n' !in Lines(c)[i]
  {
    var ls := Lines(c);
    if i <= 3 {
      FixedTextWithoutBreaks1();
      if i == 3 {
        NameValueKeepsAbsent(c.name, '\n');
        assert ls[3] == "N:" + NameValue(c.name) + ";;;";
      }
    } else if i <= 6 || i == 9 || i == 13 {
      FixedTextWithoutBreaks2();
    } else if i <= 8 {
      FixedTextWithoutBreaks3();
    } else if i == 10 {
      FixedTextWithoutBreaks4();
      EscapeCommasKeepsAbsent(c.address, '\n');
      assert ls[10] == "ADR;TYPE=WORK:;;" + EscapeCommas(c.address) + ";;;;";
    } else {
      FixedTextWithoutBreaks5();
    }
  }

  // The template's fixed texts hold no line feed (split in groups to keep
  // each proof small).
  lemma FixedTextWithoutBreaks1()
    ensures '\n' !in "BEGIN:VCARD" && '\n' !in "VERSION:3.0"
    ensures '\n' !in "FN:" && '\n' !in "N:" && '\n' !in ";;;"
  {
  }

  lemma FixedTextWithoutBreaks2()
    ensures '\n' !in "ORG:" && '\n' !in "TITLE:" && '\n' !in "TEL;TYPE=CELL:"
    ensures '\n' !in "URL:" && '\n' !in "END:VCARD"
  {
  }

  lemma FixedTextWithoutBreaks3()
    ensures '\n' !in "EMAIL;TYPE=WORK,INTERNET:" && '\n' !in "EMAIL;TYPE=GEN,INTERNET:"
  {
  }

  lemma FixedTextWithoutBreaks4()
    ensures '\n' !in "ADR;TYPE=WORK:;;" && '\n' !in ";;;;"
  {
  }

  lemma FixedTextWithoutBreaks5()
    ensures '\n' !in "X-SOCIALPROFILE;type=linkedin:" && '\n' !in "X-SOCIALPROFILE;type=github:"
  {
  }

  /** The document has exactly fourteen lines: the fixed header and footer,
      each required field verbatim after its fixed prefix, the escaped
      address, and each optional line present exactly when its field is
      truthy and empty otherwise. */
  lemma Layout(c: CardData)
    requires NoLineBreaks(c)
    ensures var ls := Split(Text(c), '\n');
      && |ls| == 14
      && ls[0] == "BEGIN:VCARD"
      && ls[1] == "VERSION:3.0"
      && ls[2] == "FN:" + c.name
      && ls[3] == "N:" + NameValue(c.name) + ";;;"
      && ls[4] == "ORG:" + c.company
      && ls[5] == "TITLE:" + c.title
      && ls[6] == "TEL;TYPE=CELL:" + c.phone
      && ls[7] == "EMAIL;TYPE=WORK,INTERNET:" + c.email
      && (ls[8] != "" <==> Truthy(c.generalEmail))
      && (Truthy(c.generalEmail) ==> ls[8] == "EMAIL;TYPE=GEN,INTERNET:" + c.generalEmail.value)
      && ls[9] == "URL:" + c.website
      && ls[10] == "ADR;TYPE=WORK:;;" + EscapeCommas(c.address) + ";;;;"
      && (ls[11] != "" <==> Truthy(c.linkedin))
      && (Truthy(c.linkedin) ==> ls[11] == "X-SOCIALPROFILE;type=linkedin:" + c.linkedin.value)
      && (ls[12] != "" <==> Truthy(c.github))
      && (Truthy(c.github) ==> ls[12] == "X-SOCIALPROFILE;type=github:" + c.github.value)
      && ls[13] == "END:VCARD"
  {
    LinesWithoutBreaks(c);
    SplitJoin(Lines(c), '\n');
    assert Split(Text(c), '\n') == Lines(c);
  }

  /** A line feed in the address (the edit form takes it from a multi-line
      text area) is written out unescaped, so the document then has more
      than fourteen lines. */
  lemma AddressLineBreakAddsLines(c: CardData)
    requires '\n' in c.address
    ensures |Split(Text(c), '\n')| > 14
  {
    var ls := Lines(c);
    assert |ls| == 14 && ls[10] == AddressLine(c.address);
    JoinCountSeparator(ls, '\n');
    SumCountAtLeast(ls, '\n', 10);
    AddressLineCount(c.address);
    CountCharPositive(c.address, '\n');
    assert CountChar(Join(ls, '\n'), '\n') >= 14;
  }

  lemma AddressLineCount(address: string)
    ensures CountChar(AddressLine(address), '\n') == CountChar(address, '\n')
  {
    EscapeCommasCount(address, '\n');
    CountCharFramed("ADR;TYPE=WORK:;;", EscapeCommas(address), ";;;;", '\n');
  }

  /** The `N` value holds the name's space-separated pieces in reverse
      order; when the name has no `;`, reading them back and joining them
      with spaces gives the name again. */
  lemma NameValuePieces(name: string)
    requires ';' !in name
    ensures Split(NameValue(name), ';') == Reverse(Split(name, ' '))
    ensures Join(Reverse(Split(NameValue(name), ';')), ' ') == name
  {
    var pieces := Split(name, ' ');
    SplitKeepsAbsent(name, ' ', ';');
    SplitJoin(Reverse(pieces), ';');
    ReverseReverse(pieces);
    JoinSplit(name, ' ');
  }

  /** A name without spaces is its own `N` value. */
  lemma NameValueOneWord(word: string)
    requires ' ' !in word
    ensures NameValue(word) == word
  {
    SplitWithout(word, ' ');
    assert Reverse([word]) == [word];
  }

  /** A two-word name is written family name first. */
  lemma NameValueTwoWords(given: string, family: string)
    requires ' ' !in given && ' ' !in family
    ensures NameValue(given + " " + family) == family + ";" + given
  {
    assert given + " " + family == given + [' '] + family;
    SplitAtFirst(given, family, ' ');
    SplitWithout(family, ' ');
    assert Split(given + " " + family, ' ') == [given, family];
    var rev := Reverse([given, family]);
    assert rev == [family, given];
    assert rev[1..] == [given];
    assert Join(rev, ';') == family + [';'] + given;
  }

  /** "Jane Doe" gives `N:Doe;Jane;;;` and "Alex" gives `N:Alex;;;`. */
  lemma NameLineExamples(jane: string, alex: string)
    requires jane == "Jane Doe" && alex == "Alex"
    ensures "N:" + NameValue(jane) + ";;;" == "N:Doe;Jane;;;"
    ensures "N:" + NameValue(alex) + ";;;" == "N:Alex;;;"
  {
    assert jane == "Jane" + " " + "Doe";
    NameValueTwoWords("Jane", "Doe");
    NameValueOneWord(alex);
  }

  /** The text depends on the contact fields alone: logo and colours do not
      reach it, and an absent optional field gives the same text as an
      empty one. Equal contact fields give identical text. */
  lemma TextDependsOnContactFields(c: CardData, d: CardData)
    requires c.name == d.name && c.title == d.title && c.company == d.company
    requires c.phone == d.phone && c.email == d.email && c.website == d.website
    requires c.address == d.address
    requires OrEmpty(c.generalEmail) == OrEmpty(d.generalEmail)
    requires OrEmpty(c.linkedin) == OrEmpty(d.linkedin)
    requires OrEmpty(c.github) == OrEmpty(d.github)
    ensures Text(c) == Text(d)
  {
    assert Lines(c) == Lines(d);
  }

  /** The download name: each whitespace run of the name becomes `_`, then
      `_Contact.vcf`. It holds no whitespace. */
  function DownloadFilename(name: string): (f: string)
    ensures NoWhitespace(f)
    ensures |f| >= 12 && f[|f| - 12..] == "_Contact.vcf"
  {
    CollapseHasNoWhitespace(name);
    NoWhitespaceAppend(CollapseWhitespace(name), "_Contact.vcf");
    CollapseWhitespace(name) + "_Contact.vcf"
  }

  /** A name without whitespace is kept as it is. */
  lemma FilenameKeepsPlainName(name: string)
    requires NoWhitespace(name)
    ensures DownloadFilename(name) == name + "_Contact.vcf"
  {
    CollapseIdentity(name);
  }

  /** A name of two whitespace-free words gets one underscore between them. */
  lemma FilenameTwoWords(given: string, family: string)
    requires given != [] && family != []
    requires NoWhitespace(given) && NoWhitespace(family)
    ensures DownloadFilename(given + " " + family) == given + "_" + family + "_Contact.vcf"
  {
    ConcatAssoc(given, " ", family);
    CollapseRun(given, " ", family);
    CollapseIdentity(given);
    CollapseIdentity(family);
    ConcatAssoc(given, "_", family);
  }

  /** "Jane Doe" downloads as `Jane_Doe_Contact.vcf`. */
  lemma FilenameExample(name: string)
    requires name == "Jane Doe"
    ensures DownloadFilename(name) == "Jane_Doe_Contact.vcf"
  {
    assert name == "Jane" + " " + "Doe";
    FilenameTwoWords("Jane", "Doe");
  }
}
