/** The JavaScript string built-ins the card relies on, on Dafny strings:
    `split` and `join` with a one-character separator, array `reverse`,
    `replace(/,/g, '\\,')` and `replace(/\s+/g, '_')`. */
module JsText {

  /** Concatenation is associative (stated once, so that proofs need not
      re-derive it element by element). */
  lemma ConcatAssoc(x: string, y: string, z: string)
    ensures x + (y + z) == (x + y) + z
  {
  }

  /** Number of occurrences of `c` in `s`. */
  function CountChar(s: string, c: char): nat
  {
    if s == [] then 0 else (if s[0] == c then 1 else 0) + CountChar(s[1..], c)
  }

  lemma {:induction false} CountCharAppend(a: string, b: string, c: char)
    ensures CountChar(a + b, c) == CountChar(a, c) + CountChar(b, c)
    decreases |a|
  {
    if a == [] {
      assert a + b == b;
    } else {
      assert (a + b)[0] == a[0] && (a + b)[1..] == a[1..] + b;
      CountCharAppend(a[1..], b, c);
    }
  }

  lemma {:induction false} CountCharAbsent(s: string, c: char)
    requires c !in s
    ensures CountChar(s, c) == 0
    decreases |s|
  {
    if s != [] {
      CountCharAbsent(s[1..], c);
    }
  }

  /** Text framed by two strings without `c` holds as many `c` as before. */
  lemma CountCharFramed(head: string, s: string, tail: string, c: char)
    requires c !in head && c !in tail
    ensures CountChar(head + s + tail, c) == CountChar(s, c)
  {
    CountCharAppend(head + s, tail, c);
    CountCharAppend(head, s, c);
    CountCharAbsent(head, c);
    CountCharAbsent(tail, c);
  }

  lemma {:induction false} CountCharPositive(s: string, c: char)
    requires c in s
    ensures CountChar(s, c) > 0
    decreases |s|
  {
    if s[0] != c {
      CountCharPositive(s[1..], c);
    }
  }

  /** Total occurrences of `c` over all the parts. */
  function SumCount(parts: seq<string>, c: char): nat
  {
    if parts == [] then 0 else CountChar(parts[0], c) + SumCount(parts[1..], c)
  }

  lemma {:induction false} SumCountAtLeast(parts: seq<string>, c: char, k: nat)
    requires k < |parts|
    ensures SumCount(parts, c) >= CountChar(parts[k], c)
    decreases k
  {
    if k > 0 {
      SumCountAtLeast(parts[1..], c, k - 1);
    }
  }

  // ---------------------------------------------------------------------
  // String.prototype.split with a one-character separator
  // ---------------------------------------------------------------------

  /** `s.split(d)`: the pieces between separators, including empty ones;
      `"".split(d)` is `[""]`. */
  function Split(s: string, d: char): (r: seq<string>)
    ensures |r| == CountChar(s, d) + 1
    ensures forall i :: 0 <= i < |r| ==> d !in r[i]
    decreases |s|
  {
    if s == [] then [""]
    else
      var rest := Split(s[1..], d);
      if s[0] == d then [""] + rest
      else [[s[0]] + rest[0]] + rest[1..]
  }

  /** Number of characters over all the parts. */
  function TotalLength(parts: seq<string>): nat
  {
    if parts == [] then 0 else |parts[0]| + TotalLength(parts[1..])
  }

  lemma {:induction false} TotalLengthAppend(a: seq<string>, b: seq<string>)
    ensures TotalLength(a + b) == TotalLength(a) + TotalLength(b)
    decreases |a|
  {
    if a == [] {
      assert a + b == b;
    } else {
      assert (a + b)[0] == a[0] && (a + b)[1..] == a[1..] + b;
      TotalLengthAppend(a[1..], b);
    }
  }

  /** `parts.join(d)`: the parts with one separator between neighbours, so
      a non-empty list joins to its characters plus one per gap. */
  function Join(parts: seq<string>, d: char): (r: string)
    ensures |parts| >= 1 ==> |r| == TotalLength(parts) + |parts| - 1
  {
    if |parts| == 0 then ""
    else if |parts| == 1 then parts[0]
    else parts[0] + [d] + Join(parts[1..], d)
  }

  /** The pieces of a split hold every character but the separators. */
  lemma {:induction false} SplitTotalLength(s: string, d: char)
    ensures TotalLength(Split(s, d)) + CountChar(s, d) == |s|
    decreases |s|
  {
    if s != [] {
      var rest := Split(s[1..], d);
      SplitTotalLength(s[1..], d);
      if s[0] == d {
        assert ([""] + rest)[1..] == rest;
      } else {
        var r := [[s[0]] + rest[0]] + rest[1..];
        assert r[1..] == rest[1..];
      }
    }
  }

  /** A join of two or more parts opens with the first part and a separator. */
  lemma JoinHead(parts: seq<string>, d: char)
    requires |parts| >= 2
    ensures |Join(parts, d)| > |parts[0]|
    ensures Join(parts, d)[..|parts[0]|] == parts[0] && Join(parts, d)[|parts[0]|] == d
  {
    var rest := Join(parts[1..], d);
    assert Join(parts, d) == (parts[0] + [d]) + rest;
  }

  /** Joining the pieces of a split gives back the string. */
  lemma {:induction false} JoinSplit(s: string, d: char)
    ensures Join(Split(s, d), d) == s
    decreases |s|
  {
    if s != [] {
      var rest := Split(s[1..], d);
      JoinSplit(s[1..], d);
      if s[0] == d {
        assert Split(s, d) == [""] + rest;
        assert ([""] + rest)[1..] == rest;
        assert [s[0]] + s[1..] == s;
      } else {
        var r := Split(s, d);
        assert r == [[s[0]] + rest[0]] + rest[1..];
        if |rest| == 1 {
          assert s == [s[0]] + s[1..];
        } else {
          assert r[1..] == rest[1..];
          assert Join(rest, d) == rest[0] + [d] + Join(rest[1..], d);
          assert s == [s[0]] + s[1..];
        }
      }
    }
  }

  /** A string without the separator splits into itself alone. */
  lemma {:induction false} SplitWithout(a: string, d: char)
    requires d !in a
    ensures Split(a, d) == [a]
    decreases |a|
  {
    if a != [] {
      SplitWithout(a[1..], d);
      assert [a[0]] + a[1..] == a;
    }
  }

  /** Splitting at the first separator. */
  lemma {:induction false} SplitAtFirst(a: string, b: string, d: char)
    requires d !in a
    ensures Split(a + [d] + b, d) == [a] + Split(b, d)
    decreases |a|
  {
    var s := a + [d] + b;
    if a == [] {
      assert s[0] == d && s[1..] == b;
    } else {
      assert s[0] == a[0] && s[1..] == a[1..] + [d] + b;
      SplitAtFirst(a[1..], b, d);
      assert [a[0]] + a[1..] == a;
    }
  }

  /** Splitting a join of separator-free parts gives back the parts. */
  lemma {:induction false} SplitJoin(parts: seq<string>, d: char)
    requires |parts| >= 1
    requires forall i :: 0 <= i < |parts| ==> d !in parts[i]
    ensures Split(Join(parts, d), d) == parts
    decreases |parts|
  {
    if |parts| == 1 {
      SplitWithout(parts[0], d);
    } else {
      SplitJoin(parts[1..], d);
      SplitAtFirst(parts[0], Join(parts[1..], d), d);
      assert [parts[0]] + parts[1..] == parts;
    }
  }

  /** A character absent from the input is absent from every piece. */
  lemma {:induction false} SplitKeepsAbsent(s: string, d: char, e: char)
    requires e !in s
    ensures forall i :: 0 <= i < |Split(s, d)| ==> e !in Split(s, d)[i]
    decreases |s|
  {
    if s != [] {
      SplitKeepsAbsent(s[1..], d, e);
    }
  }

  /** A character other than the separator that no part holds is not in the join. */
  lemma {:induction false} JoinKeepsAbsent(parts: seq<string>, d: char, e: char)
    requires e != d
    requires forall i :: 0 <= i < |parts| ==> e !in parts[i]
    ensures e !in Join(parts, d)
    decreases |parts|
  {
    if |parts| > 1 {
      JoinKeepsAbsent(parts[1..], d, e);
    }
  }

  /** A join holds one separator per gap, besides those inside the parts. */
  lemma {:induction false} JoinCountSeparator(parts: seq<string>, d: char)
    requires |parts| >= 1
    ensures CountChar(Join(parts, d), d) == |parts| - 1 + SumCount(parts, d)
    decreases |parts|
  {
    if |parts| > 1 {
      JoinCountSeparator(parts[1..], d);
      CountCharAppend(parts[0] + [d], Join(parts[1..], d), d);
      CountCharAppend(parts[0], [d], d);
      assert CountChar([d], d) == 1 by {
        assert [d][1..] == [];
      }
    }
  }

  // ---------------------------------------------------------------------
  // Array.prototype.reverse
  // ---------------------------------------------------------------------

  /** The elements in the opposite order. */
  function Reverse<T>(xs: seq<T>): (r: seq<T>)
    ensures |r| == |xs|
    ensures forall i :: 0 <= i < |xs| ==> r[i] == xs[|xs| - 1 - i]
  {
    if xs == [] then [] else Reverse(xs[1..]) + [xs[0]]
  }

  /** Reversing keeps the number of characters. */
  lemma {:induction false} ReverseTotalLength(xs: seq<string>)
    ensures TotalLength(Reverse(xs)) == TotalLength(xs)
    decreases |xs|
  {
    if xs != [] {
      ReverseTotalLength(xs[1..]);
      TotalLengthAppend(Reverse(xs[1..]), [xs[0]]);
      assert [xs[0]][1..] == [];
    }
  }

  /** Reversing twice restores the sequence. */
  lemma ReverseReverse<T>(xs: seq<T>)
    ensures Reverse(Reverse(xs)) == xs
  {
  }

  // ---------------------------------------------------------------------
  // address.replace(/,/g, '\\,')
  // ---------------------------------------------------------------------

  /** Every comma gets one backslash in front of it; nothing else changes. */
  function EscapeCommas(s: string): (r: string)
    ensures |r| == |s| + CountChar(s, ',')
    ensures r != [] ==> r[0] != ','
  {
    if s == [] then []
    else (if s[0] == ',' then "\\," else [s[0]]) + EscapeCommas(s[1..])
  }

  /** A character other than the backslash that the input lacks, the output lacks too. */
  lemma {:induction false} EscapeCommasKeepsAbsent(s: string, e: char)
    requires e != '\\' && e !in s
    ensures e !in EscapeCommas(s)
    decreases |s|
  {
    if s != [] {
      EscapeCommasKeepsAbsent(s[1..], e);
    }
  }

  /** One step of the escape: the first character, then the rest. */
  lemma EscapeCommasStep(c: char, s: string)
    ensures EscapeCommas([c] + s) == (if c == ',' then "\\," else [c]) + EscapeCommas(s)
  {
    assert ([c] + s)[1..] == s;
  }

  /** The escape acts character by character. */
  lemma {:induction false} EscapeCommasAppend(a: string, b: string)
    ensures EscapeCommas(a + b) == EscapeCommas(a) + EscapeCommas(b)
    decreases |a|
  {
    if a == [] {
      assert a + b == b;
    } else {
      var c, rest := a[0], a[1..];
      assert a == [c] + rest;
      ConcatAssoc([c], rest, b);
      EscapeCommasStep(c, rest + b);
      EscapeCommasStep(c, rest);
      EscapeCommasAppend(rest, b);
      ConcatAssoc(if c == ',' then "\\," else [c], EscapeCommas(rest), EscapeCommas(b));
    }
  }

  /** A string without commas is left as it is: no other character is escaped. */
  lemma {:induction false} EscapeCommasIdentity(s: string)
    requires ',' !in s
    ensures EscapeCommas(s) == s
    decreases |s|
  {
    if s != [] {
      EscapeCommasIdentity(s[1..]);
      assert [s[0]] + s[1..] == s;
    }
  }

  /** Characters other than comma and backslash keep their number of occurrences. */
  lemma {:induction false} EscapeCommasCount(s: string, e: char)
    requires e != ',' && e != '\\'
    ensures CountChar(EscapeCommas(s), e) == CountChar(s, e)
    decreases |s|
  {
    if s != [] {
      var head := if s[0] == ',' then "\\," else [s[0]];
      EscapeCommasCount(s[1..], e);
      CountCharAppend(head, EscapeCommas(s[1..]), e);
      if s[0] == ',' {
        assert head[1..] == [','] && [','][1..] == [];
      } else {
        assert head[1..] == [];
      }
    }
  }

  /** Deletes the character just before each comma. */
  function DropBeforeCommas(t: string): string
    decreases |t|
  {
    if |t| < 2 then t
    else if t[1] == ',' then [','] + DropBeforeCommas(t[2..])
    else [t[0]] + DropBeforeCommas(t[1..])
  }

  /** Deleting the character before each comma of the escaped text recovers the input. */
  lemma {:induction false} EscapeCommasRecoverable(s: string)
    ensures DropBeforeCommas(EscapeCommas(s)) == s
    decreases |s|
  {
    if s != [] {
      var t := EscapeCommas(s);
      var rest := EscapeCommas(s[1..]);
      EscapeCommasRecoverable(s[1..]);
      if s[0] == ',' {
        assert t == "\\," + rest;
        assert t[1] == ',' && t[2..] == rest;
      } else {
        assert t == [s[0]] + rest;
        if rest == [] {
          assert s[1..] == [];
        } else {
          assert t[1] == rest[0] && t[1..] == rest;
        }
      }
      assert s == [s[0]] + s[1..];
    }
  }

  // ---------------------------------------------------------------------
  // name.replace(/\s+/g, '_')
  // ---------------------------------------------------------------------

  /** The characters the regular-expression class `\s` matches: the
      ECMAScript WhiteSpace and LineTerminator code points. */
  predicate IsWhitespace(c: char)
  {
    var n := c as int;
    if n < 0xA0 then (0x09 <= n <= 0x0D) || n == 0x20
    else
      n == 0xA0 || n == 0x1680 || (0x2000 <= n <= 0x200A)
      || n == 0x2028 || n == 0x2029 || n == 0x202F || n == 0x205F
      || n == 0x3000 || n == 0xFEFF
  }

  /** Space, tab, line feed, carriage return and no-break space are
      whitespace; the underscore, digits and ASCII letters are not. */
  lemma WhitespaceClass(c: char)
    ensures c == ' ' || c == '\t' || c == '\n' || c == '\r' || c as int == 0xA0 ==> IsWhitespace(c)
    ensures IsWhitespace(c) ==> c != '_' && !('0' <= c <= '9') && !('a' <= c <= 'z') && !('A' <= c <= 'Z')
  {
  }

  predicate NoWhitespace(s: string)
  {
    forall i :: 0 <= i < |s| ==> !IsWhitespace(s[i])
  }

  /** The longest suffix of `s` that does not start with whitespace. */
  function DropWhitespace(s: string): (r: string)
    ensures |r| <= |s| && r == s[|s| - |r|..]
    ensures r != [] ==> !IsWhitespace(r[0])
    ensures s != [] && !IsWhitespace(s[|s| - 1]) ==> r != []
  {
    if s == [] || !IsWhitespace(s[0]) then s else DropWhitespace(s[1..])
  }

  /** Only whitespace is dropped. */
  lemma {:induction false} DropWhitespaceDropsOnlyWhitespace(s: string)
    ensures forall i :: 0 <= i < |s| - |DropWhitespace(s)| ==> IsWhitespace(s[i])
    decreases |s|
  {
    if s != [] && IsWhitespace(s[0]) {
      var t := s[1..];
      DropWhitespaceDropsOnlyWhitespace(t);
      assert DropWhitespace(s) == DropWhitespace(t);
      forall i | 0 < i < |s| - |DropWhitespace(s)|
        ensures IsWhitespace(s[i])
      {
        assert s[i] == t[i - 1];
      }
    }
  }

  /** Each maximal run of whitespace replaced by one underscore. */
  function CollapseWhitespace(s: string): (r: string)
    ensures |r| <= |s|
    decreases |s|
  {
    if s == [] then []
    else if IsWhitespace(s[0]) then "_" + CollapseWhitespace(DropWhitespace(s[1..]))
    else [s[0]] + CollapseWhitespace(s[1..])
  }

  /** The collapsed string holds no whitespace. */
  lemma {:induction false} CollapseHasNoWhitespace(s: string)
    ensures NoWhitespace(CollapseWhitespace(s))
    decreases |s|
  {
    if s != [] {
      var head := if IsWhitespace(s[0]) then "_" else [s[0]];
      var rest := if IsWhitespace(s[0]) then DropWhitespace(s[1..]) else s[1..];
      CollapseHasNoWhitespace(rest);
      assert CollapseWhitespace(s) == head + CollapseWhitespace(rest);
      NoWhitespaceAppend(head, CollapseWhitespace(rest));
    }
  }

  lemma NoWhitespaceAppend(a: string, b: string)
    requires NoWhitespace(a) && NoWhitespace(b)
    ensures NoWhitespace(a + b)
  {
  }

  /** A string without whitespace is left as it is. */
  lemma {:induction false} CollapseIdentity(s: string)
    requires NoWhitespace(s)
    ensures CollapseWhitespace(s) == s
    decreases |s|
  {
    if s != [] {
      CollapseIdentity(s[1..]);
      assert [s[0]] + s[1..] == s;
    }
  }

  /** Skipping leading whitespace does not reach past a non-whitespace last character. */
  lemma {:induction false} DropWhitespaceAppend(u: string, t: string)
    requires u != [] && !IsWhitespace(u[|u| - 1])
    ensures DropWhitespace(u + t) == DropWhitespace(u) + t
    decreases |u|
  {
    assert (u + t)[0] == u[0];
    if IsWhitespace(u[0]) {
      assert (u + t)[1..] == u[1..] + t;
      DropWhitespaceAppend(u[1..], t);
    }
  }

  /** Skipping a whitespace prefix stops at the first non-whitespace character. */
  lemma {:induction false} DropWhitespacePrefix(w: string, b: string)
    requires NoWhitespaceStart(b)
    requires forall i :: 0 <= i < |w| ==> IsWhitespace(w[i])
    ensures DropWhitespace(w + b) == b
    decreases |w|
  {
    if w == [] {
      assert w + b == b;
    } else {
      assert (w + b)[0] == w[0] && (w + b)[1..] == w[1..] + b;
      DropWhitespacePrefix(w[1..], b);
    }
  }

  predicate NoWhitespaceStart(s: string)
  {
    s == [] || !IsWhitespace(s[0])
  }

  predicate NoWhitespaceEnd(s: string)
  {
    s == [] || !IsWhitespace(s[|s| - 1])
  }

  /** A non-whitespace character is copied, then the rest is collapsed. */
  lemma CollapseWordStep(c: char, s: string)
    requires !IsWhitespace(c)
    ensures CollapseWhitespace([c] + s) == [c] + CollapseWhitespace(s)
  {
    assert ([c] + s)[1..] == s;
  }

  /** A whitespace character starts a run that becomes one underscore. */
  lemma CollapseSpaceStep(c: char, s: string)
    requires IsWhitespace(c)
    ensures CollapseWhitespace([c] + s) == "_" + CollapseWhitespace(DropWhitespace(s))
  {
    assert ([c] + s)[1..] == s;
  }

  /** A string cut after a non-whitespace character collapses piecewise. */
  lemma {:induction false} CollapseAppend(a: string, t: string)
    requires NoWhitespaceEnd(a)
    ensures CollapseWhitespace(a + t) == CollapseWhitespace(a) + CollapseWhitespace(t)
    decreases |a|
  {
    if a == [] {
      assert a + t == t;
    } else {
      var c, rest := a[0], a[1..];
      assert a == [c] + rest;
      ConcatAssoc([c], rest, t);
      var ct := CollapseWhitespace(t);
      if !IsWhitespace(c) {
        CollapseAppend(rest, t);
        CollapseWordStep(c, rest + t);
        CollapseWordStep(c, rest);
        ConcatAssoc([c], CollapseWhitespace(rest), ct);
      } else {
        assert rest != [] && rest[|rest| - 1] == a[|a| - 1];
        DropWhitespaceAppend(rest, t);
        var v := DropWhitespace(rest);
        assert v != [] && v[|v| - 1] == rest[|rest| - 1];
        CollapseAppend(v, t);
        CollapseSpaceStep(c, rest + t);
        CollapseSpaceStep(c, rest);
        ConcatAssoc("_", CollapseWhitespace(v), ct);
      }
    }
  }

  /** A leading whitespace run becomes one underscore. */
  lemma CollapseLeadingRun(w: string, b: string)
    requires NoWhitespaceStart(b)
    requires |w| > 0 && forall i :: 0 <= i < |w| ==> IsWhitespace(w[i])
    ensures CollapseWhitespace(w + b) == "_" + CollapseWhitespace(b)
  {
    var wb := w + b;
    assert wb != [] && wb[0] == w[0] && IsWhitespace(wb[0]);
    assert wb[1..] == w[1..] + b;
    DropWhitespacePrefix(w[1..], b);
    assert DropWhitespace(wb[1..]) == b;
  }

  /** One maximal whitespace run between two non-whitespace neighbours becomes one underscore. */
  lemma CollapseRun(a: string, w: string, b: string)
    requires NoWhitespaceEnd(a) && NoWhitespaceStart(b)
    requires |w| > 0 && forall i :: 0 <= i < |w| ==> IsWhitespace(w[i])
    ensures CollapseWhitespace(a + (w + b)) == CollapseWhitespace(a) + ("_" + CollapseWhitespace(b))
  {
    CollapseAppend(a, w + b);
    CollapseLeadingRun(w, b);
  }
}
