# Digital business card: contact record, vCard export and card view

This project models the core of a single-page React digital business card:

- the contact record (`CardData`) and the two card faces;
- the "save contact" action. It builds a vCard 3.0 document (RFC 2426) from
  the record with one template, and it builds the download file name;
- the card component's view state: which face is up, detail or compact mode,
  the generated bio, and the share dialog. It also covers what the back face
  shows for a given state;
- the application shell: the starting record, the edit form's twelve fields,
  and the two handlers that replace the record (a form edit and a logo upload).

Modules:

- `Types` (`types.dfy`): the record and JavaScript truthiness of optional strings.
  Optional properties are `Option<string>`. `None` is an absent property.
  `Truthy` is false for both `None` and `Some("")`.
- `JsText` (`js_text.dfy`): the string built-ins the template relies on.
  - `split` and `join` with a one-character separator. `"".split(d)` is `[""]`.
  - Array `reverse`.
  - `replace(/,/g, '\\,')`.
  - `replace(/\s+/g, '_')`, where `\s` is the exact set of ECMAScript
    WhiteSpace and LineTerminator code points.
- `VCard` (`vcard.dfy`): the fourteen template lines, the document and the file name.
- `CardView` (`card_view.dfy`): pure state transitions, visible rows, the bio
  area and background colours.
  - `CardViewState` is a class with one field per modelled state hook. Its methods are
    proved against the pure transitions.
- `App` (`app.dfy`): the record update `{ ...prev, [name]: value }` as `SetField`,
  the logo replacement as `WithLogo`, and the class `AppState` that holds
  `cardData` and `isEditing`.

Behaviour of the template that a reader might not expect:

- The optional `EMAIL;TYPE=GEN` and `X-SOCIALPROFILE` lines test JavaScript
  truthiness, so an empty string counts as unset. They leave an empty line in
  place, so the document always has fourteen line slots (`VCard.Layout`).
- The `N` value splits on a single space: two spaces give an empty piece and a
  tab is not a separator (`VCard.NameValue`).

## Model

| member | source | states |
|---|---|---|
| `Types.OrEmpty` | App.tsx:160 | the form's `value` fallback to `''` is non-empty exactly when the field is truthy, and is then the field's value |
| `Types.OrDefault` | components/DigitalCard.tsx:104 | a colour with its default is the colour when truthy and the default otherwise; never empty when the default is not |
| `Types.SideOf` | types.ts:17-20 | a string names a side exactly when it is that side's value |
| `Types.FalsyValues` | components/DigitalCard.tsx:51 | exactly two optional strings are falsy: the absent one and the empty one |
| `Types.CardSideValues` | types.ts:17-20 | the two sides carry distinct values and each value reads back as its own side |
| `JsText.Split` | components/DigitalCard.tsx:46 | `split` gives one more piece than there are separators, and no piece holds the separator |
| `JsText.Join` | components/DigitalCard.tsx:46 | `join` of a non-empty list is as long as its parts plus one separator per gap |
| `JsText.JoinHead` | components/DigitalCard.tsx:43-56 | a join of two or more parts opens with the first part followed by the separator |
| `JsText.SplitTotalLength` | components/DigitalCard.tsx:46 | the pieces of a split hold every character of the string except the separators |
| `JsText.JoinSplit` | components/DigitalCard.tsx:46 | joining the pieces of a split with the same separator gives back the string |
| `JsText.SplitJoin` | components/DigitalCard.tsx:46 | splitting a join of separator-free parts gives back the parts |
| `JsText.SplitWithout` | components/DigitalCard.tsx:46 | a string without the separator splits into itself alone |
| `JsText.SplitAtFirst` | components/DigitalCard.tsx:46 | splitting `a + d + b` with `a` free of `d` gives `a` followed by the pieces of `b` |
| `JsText.SplitKeepsAbsent` | components/DigitalCard.tsx:46 | a character absent from the input is absent from every piece |
| `JsText.JoinKeepsAbsent` | components/DigitalCard.tsx:46 | a non-separator character absent from every part is absent from the join |
| `JsText.JoinCountSeparator` | components/DigitalCard.tsx:43-56 | a join holds one separator per gap besides those inside the parts |
| `JsText.Reverse` | components/DigitalCard.tsx:46 | `reverse` keeps the length and puts element `i` at position `n-1-i` |
| `JsText.ReverseTotalLength` | components/DigitalCard.tsx:46 | reversing a list of strings keeps its number of characters |
| `JsText.ReverseReverse` | components/DigitalCard.tsx:46 | reversing twice restores the sequence |
| `JsText.EscapeCommas` | components/DigitalCard.tsx:53 | the escaped address is longer by exactly the number of commas and never starts with a bare comma |
| `JsText.EscapeCommasKeepsAbsent` | components/DigitalCard.tsx:53 | the escape introduces no character other than the backslash |
| `JsText.EscapeCommasAppend` | components/DigitalCard.tsx:53 | the escape acts character by character: it distributes over concatenation |
| `JsText.EscapeCommasIdentity` | components/DigitalCard.tsx:53 | a comma-free address is left unchanged: nothing but commas is escaped |
| `JsText.EscapeCommasCount` | components/DigitalCard.tsx:53 | every character other than comma and backslash occurs as often as before |
| `JsText.EscapeCommasRecoverable` | components/DigitalCard.tsx:53 | deleting the character before each comma of the escaped text recovers the address |
| `JsText.WhitespaceClass` | components/DigitalCard.tsx:62 | `IsWhitespace`, the `\s` class, holds of space, tab, line feed, carriage return and no-break space, and never of `_`, digits or ASCII letters |
| `JsText.DropWhitespace` | components/DigitalCard.tsx:62 | skipping a whitespace run gives a suffix that does not start with whitespace and is non-empty when the input ends in a non-whitespace character |
| `JsText.DropWhitespaceDropsOnlyWhitespace` | components/DigitalCard.tsx:62 | everything skipped is whitespace |
| `JsText.DropWhitespaceAppend` | components/DigitalCard.tsx:62 | skipping a run never reaches past a non-whitespace character |
| `JsText.DropWhitespacePrefix` | components/DigitalCard.tsx:62 | skipping a whitespace prefix stops exactly at the first non-whitespace character |
| `JsText.CollapseWhitespace` | components/DigitalCard.tsx:62 | `replace(/\s+/g, '_')` never lengthens the name |
| `JsText.CollapseHasNoWhitespace` | components/DigitalCard.tsx:62 | the result holds no whitespace |
| `JsText.CollapseIdentity` | components/DigitalCard.tsx:62 | a name without whitespace is unchanged |
| `JsText.CollapseAppend` | components/DigitalCard.tsx:62 | a string cut after a non-whitespace character is rewritten piece by piece |
| `JsText.CollapseLeadingRun` | components/DigitalCard.tsx:62 | a leading whitespace run of any length becomes one `_` |
| `JsText.CollapseRun` | components/DigitalCard.tsx:62 | one maximal whitespace run between non-whitespace neighbours becomes one `_` |
| `VCard.Lines` | components/DigitalCard.tsx:43-56 | the template has fourteen lines, opens with `BEGIN:VCARD` and `VERSION:3.0`, closes with `END:VCARD`, and each optional line is non-empty exactly when its field is truthy |
| `VCard.Text` | components/DigitalCard.tsx:43-56 | the document opens with `BEGIN:VCARD` and a line feed and holds at least thirteen line feeds |
| `VCard.OptionalLine` | components/DigitalCard.tsx:51-55 | an optional line is non-empty exactly when its field is truthy, and is then the prefix followed by the field |
| `VCard.AddressLine` | components/DigitalCard.tsx:53 | the `ADR` line opens with `ADR;TYPE=WORK:;;`, ends with `;;;;`, and is longer than the address by 20 plus its number of commas |
| `VCard.NameValue` | components/DigitalCard.tsx:46 | the `N` value is exactly as long as the name: each space gives way to one `;` |
| `VCard.Layout` | components/DigitalCard.tsx:43-56 | when no field holds a line feed, the document has exactly 14 lines: `BEGIN:VCARD`, `VERSION:3.0`, each required field verbatim after its prefix, the `N` value, the escaped `ADR` line, `END:VCARD`, and each optional line present exactly when its field is truthy and empty otherwise |
| `VCard.LinesWithoutBreaks` | components/DigitalCard.tsx:43-56 | no template line holds a line feed when no field does |
| `VCard.AddressLineBreakAddsLines` | components/DigitalCard.tsx:53 | an address holding a line feed is written unescaped, so the document then has more than 14 lines |
| `VCard.AddressLineCount` | components/DigitalCard.tsx:53 | the `ADR` line holds exactly as many line feeds as the address |
| `VCard.NameValueKeepsAbsent` | components/DigitalCard.tsx:46 | the `N` value holds no character the name lacks, other than `;` |
| `VCard.NameValuePieces` | components/DigitalCard.tsx:46 | for a name without `;`, the `N` value's `;`-pieces are the space-pieces of the name reversed, and joining them back reversed with spaces gives the name |
| `VCard.NameValueOneWord` | components/DigitalCard.tsx:46 | a one-word name is its own `N` value |
| `VCard.NameValueTwoWords` | components/DigitalCard.tsx:46 | a two-word name is written family name first, separated by `;` |
| `VCard.NameLineExamples` | components/DigitalCard.tsx:46 | "Jane Doe" gives `N:Doe;Jane;;;` and "Alex" gives `N:Alex;;;` |
| `VCard.TextDependsOnContactFields` | components/DigitalCard.tsx:43-56 | the document is determined by the contact fields: logo and colours do not reach it, and an absent optional field gives the same text as an empty one |
| `VCard.DownloadFilename` | components/DigitalCard.tsx:62 | the file name holds no whitespace and ends in `_Contact.vcf` |
| `VCard.FilenameKeepsPlainName` | components/DigitalCard.tsx:62 | a name without whitespace is kept as it is before `_Contact.vcf` |
| `VCard.FilenameTwoWords` | components/DigitalCard.tsx:62 | two whitespace-free words get exactly one `_` between them |
| `VCard.FilenameExample` | components/DigitalCard.tsx:62 | "Jane Doe" downloads as `Jane_Doe_Contact.vcf` |
| `CardView.Flip` | components/DigitalCard.tsx:22-24 | flipping negates `isFlipped` and changes nothing else |
| `CardView.ToggleCompact` | components/DigitalCard.tsx:34-37 | the mode switch negates `isCompact` and changes nothing else |
| `CardView.StartBio` | components/DigitalCard.tsx:28 | sending the bio request sets the busy flag and changes nothing else |
| `CardView.FinishBio` | components/DigitalCard.tsx:30-31 | the answer is stored as the bio, the busy flag is cleared, nothing else changes |
| `CardView.FlipTwice` | components/DigitalCard.tsx:22-24 | flipping twice restores the state |
| `CardView.ToggleCompactTwice` | components/DigitalCard.tsx:34-37 | switching the mode twice restores the state |
| `CardView.FlipToggleCommute` | components/DigitalCard.tsx:22-37 | flipping and switching the mode commute |
| `CardView.VisibleSide` | components/DigitalCard.tsx:97 | the back face is up exactly when the card is flipped |
| `CardView.FlipShowsOtherSide` | components/DigitalCard.tsx:97-98 | each flip shows the other face, and two flips show the same face again |
| `CardView.VisibleRows` | components/DigitalCard.tsx:158-218 | phone, email, website and address rows are always shown, phone first and address last; the general email, LinkedIn and GitHub rows are shown exactly in detail mode with a truthy field |
| `CardView.VisibleRowsOrdered` | components/DigitalCard.tsx:158-218 | the rows appear in markup order, each at most once |
| `CardView.DetailShowsAllRows` | components/DigitalCard.tsx:158-218 | in detail mode with every optional field truthy, all seven rows show, in markup order |
| `CardView.BioAreaOf` | components/DigitalCard.tsx:221-246 | the bio area is hidden exactly in compact mode; a stored bio is quoted, and the request button appears only while there is none, disabled exactly while a request is out |
| `CardView.InitialView` | components/DigitalCard.tsx:11-19 | a new card shows its front face in detail mode, with the enabled request button and the dialog closed |
| `CardView.CompactShowsEssentials` | components/DigitalCard.tsx:158-247 | compact mode shows exactly phone, email, website and address, and hides the bio area |
| `CardView.DetailShowsBioArea` | components/DigitalCard.tsx:221-246 | detail mode always has a bio area: the stored bio is quoted, otherwise the request button is offered, disabled exactly while a request is out |
| `CardView.FinishedBioIsQuoted` | components/DigitalCard.tsx:26-31 | after a request answers with a non-empty text, the detail view quotes it |
| `CardView.FrontColor` | components/DigitalCard.tsx:104 | the front background is the chosen colour when truthy and `#ffffff` otherwise |
| `CardView.BackColor` | components/DigitalCard.tsx:133 | the back background is the chosen colour when truthy and `#546E7A` otherwise |
| `CardView.CardViewState.constructor` | components/DigitalCard.tsx:11-19 | a mounted card starts on the front face, in detail mode, with no bio, not busy, dialog closed |
| `CardView.CardViewState.HandleFlip` | components/DigitalCard.tsx:22-24 | the state after a click is `Flip` of the state before |
| `CardView.CardViewState.ToggleViewMode` | components/DigitalCard.tsx:34-37 | the state after the switch is `ToggleCompact` of the state before |
| `CardView.CardViewState.BeginBioRequest` | components/DigitalCard.tsx:28 | the state after pressing the bio button is `StartBio` of the state before |
| `CardView.CardViewState.CompleteBioRequest` | components/DigitalCard.tsx:29-31 | the state after the answer is `FinishBio` of the state before |
| `CardView.CardViewState.OpenShareModal` | components/DigitalCard.tsx:253 | the share button opens the dialog and changes nothing else |
| `CardView.CardViewState.CloseShareModal` | components/DigitalCard.tsx:270-274 | the backdrop or close button closes the dialog and changes nothing else |
| `CardView.CardViewState.Rows` | components/DigitalCard.tsx:158-218 | the rows shown are `VisibleRows` for the current mode, four of them in compact mode |
| `App.InitialCardDataComplete` | App.tsx:7-21 | the starting record has every required field non-empty and every optional field truthy |
| `App.InitialCardExport` | App.tsx:8 | the starting name is "Alexander Wijaya": its `N` value is `Wijaya;Alexander` and it downloads as `Alexander_Wijaya_Contact.vcf` |
| `App.FieldName` | App.tsx:106-176 | a control's `name` attribute is never empty and never `logoUrl` |
| `App.FieldNamed` | App.tsx:106-176 | a control name maps to the field it names, and to nothing when no field has that name |
| `App.EditableFieldNames` | App.tsx:106-176 | the form has twelve controls (`FormFields`), every field is among them with a name that reads back as that field, and none is `logoUrl` |
| `App.RecordsAgree` | types.ts:1-15 | a record is determined by its twelve form fields and its logo |
| `App.SetField` | App.tsx:27-30 | the new record has the named field set to the control's value and every other property, the logo included, unchanged |
| `App.SetFieldSameValue` | App.tsx:29 | setting a field to its current value leaves the record unchanged |
| `App.SetFieldTwice` | App.tsx:29 | the last edit of a field wins, and repeating an edit equals doing it once |
| `App.SetFieldCommute` | App.tsx:29 | edits of two different fields commute |
| `App.FormValue` | App.tsx:109-176 | required fields and colours show their stored value; the three optional contact fields show their value when truthy and `''` otherwise |
| `App.WithLogo` | App.tsx:36 | the upload sets `logoUrl` and leaves every form field unchanged |
| `App.ClearedOptionalLikeAbsent` | App.tsx:160-172 | an absent optional field is shown as `''`; clearing it stores `''`, which differs from absence in the record but gives the same vCard text |
| `App.AppState.constructor` | App.tsx:24-25 | the application starts with the initial record and the edit panel closed |
| `App.AppState.HandleInputChange` | App.tsx:27-30 | the record becomes `SetField` of the old record; the panel state is kept |
| `App.AppState.HandleLogoUpload` | App.tsx:32-38 | with a selected file the record becomes `WithLogo` of the old record; with none it is unchanged |
| `App.AppState.OpenEditor` | App.tsx:45 | the settings button opens the edit panel and keeps the record |
| `App.AppState.CloseEditor` | App.tsx:75 | the close button closes the edit panel and keeps the record |

## Left out

- Sharing (`handleShareLink`) is browser I/O and a timer: `navigator.share`,
  the clipboard, and the two-second `linkCopied` reset. Neither it nor the
  `linkCopied` flag is modelled.
- The bio request is a network call to a hosted text model. Its answer is the
  `generated` parameter of `CardViewState.CompleteBioRequest`. The generator
  service is not part of this model.
- The QR scanner component (camera, frame loop, foreign decoder) is not part of this model.
- The download's DOM side effects are not modelled: the Blob, the object URL,
  and the anchor click and removal. Only the text and the file name they receive are.
- The logo's object URL is produced by the browser. It is the `objectUrl`
  parameter of `AppState.HandleLogoUpload`.
- Rendering is not modelled: markup, styling, animations, the mode-switch
  caption and the footer year. The back face's rows and bio area are modelled
  as values (`VisibleRows`, `BioAreaOf`).
- The template's line breaks are taken as line feeds.
- Strings are sequences of Dafny characters (Unicode scalar values), not
  UTF-16 code units. A `\s` test on an unpaired surrogate is not modelled.
- `App.SetField` and `App.AppState.HandleInputChange` model only the twelve
  control names the form uses. A change event carrying any other `name` would
  add a new property to the record in JavaScript; no control can produce one.
- `VCard.Layout` states the fourteen-line layout only for records whose fields
  hold no line feed. The address is edited in a multi-line text area and is
  written out unescaped. `VCard.AddressLineBreakAddsLines` proves that such an
  address breaks the layout. Every other field reaching the text comes from a
  single-line `text` or `email` input, whose value sanitisation strips line
  breaks, so any record the form can produce meets the requirement unless its
  address has several lines.
- The vCard text follows the template, not the full escaping grammar of
  section 4 of RFC 2426. Only commas in the address are escaped, and the model
  does the same.
