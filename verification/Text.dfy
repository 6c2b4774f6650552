// Splitting and joining strings at a separator and stripping blanks, as `str.split`, `str.join` and
// `str.strip` do: joining undoes splitting, splitting undoes joining where no part has the separator
// in it, and stripping takes the blanks at both ends and nothing else.

module Text {

  // `s.split(sep)` for a one-character separator.
  function Split(s: string, sep: char): (parts: seq<string>)
    ensures parts != []
  {
    if s == "" then [""]
    else if s[0] == sep then [""] + Split(s[1..], sep)
    else var rest := Split(s[1..], sep); [[s[0]] + rest[0]] + rest[1..]
  }

  function Join(parts: seq<string>, sep: char): string {
    if parts == [] then ""
    else if |parts| == 1 then parts[0]
    else parts[0] + [sep] + Join(parts[1..], sep)
  }

  lemma {:induction false} SplitRemovesSeparators(s: string, sep: char)
    ensures forall p | p in Split(s, sep) :: sep !in p
    decreases |s|
  {
    if s != "" {
      SplitRemovesSeparators(s[1..], sep);
      var rest := Split(s[1..], sep);
      assert rest[0] in rest;
      forall p | p in Split(s, sep) ensures sep !in p {
        if p in rest[1..] {
          assert p in rest;
        }
      }
    }
  }

  lemma {:induction false} SplitAtSeparator(a: string, b: string, sep: char)
    requires sep !in a
    ensures Split(a + [sep] + b, sep) == [a] + Split(b, sep)
    decreases |a|
  {
    if a == "" {
      assert a + [sep] + b == [sep] + b;
      assert ([sep] + b)[1..] == b;
    } else {
      SplitAtSeparator(a[1..], b, sep);
      assert (a + [sep] + b)[1..] == a[1..] + [sep] + b;
      assert [a[0]] + a[1..] == a;
    }
  }

  lemma {:induction false} SplitWithoutSeparator(a: string, sep: char)
    requires sep !in a
    ensures Split(a, sep) == [a]
    decreases |a|
  {
    if a != "" {
      SplitWithoutSeparator(a[1..], sep);
      assert [a[0]] + a[1..] == a;
    }
  }

  lemma {:induction false} SplitJoin(parts: seq<string>, sep: char)
    requires parts != [] && forall p | p in parts :: sep !in p
    ensures Split(Join(parts, sep), sep) == parts
    decreases |parts|
  {
    if |parts| == 1 {
      SplitWithoutSeparator(parts[0], sep);
    } else {
      SplitJoin(parts[1..], sep);
      SplitAtSeparator(parts[0], Join(parts[1..], sep), sep);
    }
  }

  lemma {:induction false} JoinOneMore(parts: seq<string>, part: string, sep: char)
    requires parts != []
    ensures Join(parts + [part], sep) == Join(parts, sep) + [sep] + part
    decreases |parts|
  {
    if |parts| > 1 {
      JoinOneMore(parts[1..], part, sep);
      assert (parts + [part])[1..] == parts[1..] + [part];
    }
  }

  /** Joining the parts of a string gives the string back. */
  lemma {:induction false} JoinSplit(s: string, sep: char)
    ensures Join(Split(s, sep), sep) == s
    decreases |s|
  {
    if s != "" {
      JoinSplit(s[1..], sep);
      var rest := Split(s[1..], sep);
      if s[0] == sep {
        assert Split(s, sep)[1..] == rest;
      } else {
        assert Split(s, sep)[1..] == rest[1..];
        assert [s[0]] + s[1..] == s;
      }
    }
  }

  // ----------------------------------------------------------------------- stripping

  // `str.isspace` on one character.
  predicate IsSpace(c: char) {
    var u := c as int;
    9 <= u <= 13 || 28 <= u <= 32 || u == 0x85 || u == 0xA0 || u == 0x1680 || 0x2000 <= u <= 0x200A
    || u == 0x2028 || u == 0x2029 || u == 0x202F || u == 0x205F || u == 0x3000
  }

  function StripLeft(s: string): string {
    if s != "" && IsSpace(s[0]) then StripLeft(s[1..]) else s
  }

  function StripRight(s: string): string {
    if s != "" && IsSpace(s[|s| - 1]) then StripRight(s[..|s| - 1]) else s
  }

  function Strip(s: string): string {
    StripRight(StripLeft(s))
  }

  predicate AllSpaces(s: string) {
    forall c | c in s :: IsSpace(c)
  }

  lemma {:induction false} StripLeftCuts(s: string) returns (before: string)
    ensures s == before + StripLeft(s) && AllSpaces(before)
    ensures StripLeft(s) != "" ==> !IsSpace(StripLeft(s)[0])
    decreases |s|
  {
    if s != "" && IsSpace(s[0]) {
      var more := StripLeftCuts(s[1..]);
      before := [s[0]] + more;
      assert s == [s[0]] + (more + StripLeft(s[1..]));
    } else {
      before := "";
    }
  }

  lemma {:induction false} StripRightCuts(s: string) returns (after: string)
    ensures s == StripRight(s) + after && AllSpaces(after)
    ensures StripRight(s) != "" ==> !IsSpace(StripRight(s)[|StripRight(s)| - 1])
    decreases |s|
  {
    if s != "" && IsSpace(s[|s| - 1]) {
      var more := StripRightCuts(s[..|s| - 1]);
      after := more + [s[|s| - 1]];
      assert s == (StripRight(s[..|s| - 1]) + more) + [s[|s| - 1]];
    } else {
      after := "";
    }
  }

  /** t is s without blanks at its ends: a part of s with nothing but blanks before and after it, that
      neither begins nor ends with one. */
  ghost predicate IsStripped(s: string, t: string) {
    && (t != "" ==> !IsSpace(t[0]) && !IsSpace(t[|t| - 1]))
    && exists before, after :: s == before + t + after && AllSpaces(before) && AllSpaces(after)
  }

  lemma {:induction false} StripLeftOf(before: string, t: string)
    requires AllSpaces(before) && (t != "" ==> !IsSpace(t[0]))
    ensures StripLeft(before + t) == t
    decreases |before|
  {
    if before == "" {
      assert before + t == t;
    } else {
      assert IsSpace(before[0]);
      StripLeftOf(before[1..], t);
      assert (before + t)[1..] == before[1..] + t;
    }
  }

  lemma {:induction false} StripRightOf(t: string, after: string)
    requires AllSpaces(after) && (t != "" ==> !IsSpace(t[|t| - 1]))
    ensures StripRight(t + after) == t
    decreases |after|
  {
    if after == "" {
      assert t + after == t;
    } else {
      assert IsSpace(after[|after| - 1]);
      StripRightOf(t, after[..|after| - 1]);
      assert (t + after)[..|t + after| - 1] == t + after[..|after| - 1];
    }
  }

  /** Stripping takes the blanks at the ends, all of them, and nothing else. Of the ASCII characters,
      the blanks are space, tab, the line ends and the four separators. */
  lemma StripIsStripped(s: string, t: string)
    ensures IsStripped(s, t) <==> t == Strip(s)
    ensures forall c: char | c < 128 as char ::
              IsSpace(c) <==> c == ' ' || '\t' <= c <= '\r' || '\U{1C}' <= c <= '\U{1F}'
  {
    if IsStripped(s, t) {
      var before, after :| s == before + t + after && AllSpaces(before) && AllSpaces(after);
      if t == "" {
        StripLeftOf(s, "");
        assert s + "" == s;
      } else {
        assert s == before + (t + after);
        StripLeftOf(before, t + after);
        StripRightOf(t, after);
      }
    }
    StripParts(s);
  }

  lemma StripParts(s: string)
    ensures IsStripped(s, Strip(s))
  {
    var before := StripLeftCuts(s);
    var after := StripRightCuts(StripLeft(s));
    assert s == before + Strip(s) + after;
    if Strip(s) != "" {
      assert Strip(s)[0] == StripLeft(s)[0];
    }
  }

  /** Stripping twice is stripping once, and brings in no new characters. */
  lemma StripIsIdempotent(s: string)
    ensures Strip(Strip(s)) == Strip(s)
    ensures forall c | c in Strip(s) :: c in s
  {
    StripParts(s);
    assert Strip(s) == "" + Strip(s) + "";
    StripIsStripped(Strip(s), Strip(s));
  }
}
