// Custom attribute strings such as "UR:3;BW:10Mbps": parsing at the control server
// (src/tables/cs_tables.py) and printing at the access point (src/nodes/access_point.py); what
// either comes to, read off the parts of the string, and when one undoes the other.

module Attributes {
  import opened Text

  // A dictionary in insertion order.
  type Attrs = seq<(string, string)>

  predicate UniqueKeys(d: Attrs) {
    forall i, j | 0 <= i < j < |d| :: d[i].0 != d[j].0
  }

  // Assignment to a dictionary: an existing key keeps its place.
  function Put(d: Attrs, k: string, v: string): Attrs {
    if d == [] then [(k, v)]
    else if d[0].0 == k then [(k, v)] + d[1..]
    else [d[0]] + Put(d[1..], k, v)
  }

  // ------------------------------------------------------------------ string operations

  function IndexOf(s: string, c: char): (i: nat)
    requires c in s
    ensures i < |s| && s[i] == c && c !in s[..i]
  {
    if s[0] == c then 0 else 1 + IndexOf(s[1..], c)
  }

  // ----------------------------------------------------------------- parse and print

  // One part, split at its first colon; a part without a colon is skipped.
  function PutPart(d: Attrs, part: string): Attrs {
    if ':' !in part then d
    else Put(d, Strip(part[..IndexOf(part, ':')]), Strip(part[IndexOf(part, ':') + 1..]))
  }

  function PutParts(parts: seq<string>): Attrs {
    if parts == [] then [] else PutPart(PutParts(parts[..|parts| - 1]), parts[|parts| - 1])
  }

  function Parse(s: string): Attrs {
    if s == "" then [] else PutParts(Split(s, ';'))
  }

  method ParseAttributes(customAttributes: string) returns (attrs: Attrs)
    ensures attrs == Parse(customAttributes)
  {
    attrs := [];
    if customAttributes != "" {
      var parts := Split(customAttributes, ';');
      for i := 0 to |parts|
        invariant attrs == PutParts(parts[..i])
      {
        assert parts[..i + 1][..i] == parts[..i];
        if ':' in parts[i] {
          var at := IndexOf(parts[i], ':');
          attrs := Put(attrs, Strip(parts[i][..at]), Strip(parts[i][at + 1..]));
        }
      }
      assert parts[..|parts|] == parts;
    }
  }

  function Item(kv: (string, string)): string {
    kv.0 + ":" + kv.1
  }

  function Items(d: Attrs): (r: seq<string>)
    ensures |r| == |d| && forall i | 0 <= i < |d| :: r[i] == Item(d[i])
  {
    if d == [] then [] else Items(d[..|d| - 1]) + [Item(d[|d| - 1])]
  }

  function Print(d: Attrs): string {
    Join(Items(d), ';')
  }

  // ------------------------------------------------------------------ clean dictionaries

  predicate CleanPair(kv: (string, string)) {
    && Strip(kv.0) == kv.0 && ':' !in kv.0 && ';' !in kv.0
    && Strip(kv.1) == kv.1 && ';' !in kv.1
  }

  /** Stripped keys and values, no separators where parsing would cut. */
  predicate Clean(d: Attrs) {
    UniqueKeys(d) && forall i | 0 <= i < |d| :: CleanPair(d[i])
  }

  lemma {:induction false} PutAddsOnlyItsPair(d: Attrs, k: string, v: string)
    ensures forall kv | kv in Put(d, k, v) :: kv == (k, v) || kv in d
    decreases |d|
  {
    if d != [] && d[0].0 != k {
      PutAddsOnlyItsPair(d[1..], k, v);
    }
  }

  lemma {:induction false} PutKeepsUnique(d: Attrs, k: string, v: string)
    requires UniqueKeys(d)
    ensures UniqueKeys(Put(d, k, v))
    decreases |d|
  {
    if d != [] && d[0].0 != k {
      PutKeepsUnique(d[1..], k, v);
      PutAddsOnlyItsPair(d[1..], k, v);
      forall kv | kv in Put(d[1..], k, v) ensures kv.0 != d[0].0 {
        if kv in d[1..] {
          var j :| 0 <= j < |d[1..]| && d[1..][j] == kv;
          assert d[j + 1] == kv;
        }
      }
    }
  }

  lemma PutKeepsClean(d: Attrs, k: string, v: string)
    requires Clean(d) && CleanPair((k, v))
    ensures Clean(Put(d, k, v))
  {
    PutKeepsUnique(d, k, v);
    PutAddsOnlyItsPair(d, k, v);
    var r := Put(d, k, v);
    forall i | 0 <= i < |r| ensures CleanPair(r[i]) {
      assert r[i] in r;
    }
  }

  lemma CutPartIsClean(part: string)
    requires ':' in part && ';' !in part
    ensures CleanPair((Strip(part[..IndexOf(part, ':')]), Strip(part[IndexOf(part, ':') + 1..])))
  {
    var i := IndexOf(part, ':');
    StripIsIdempotent(part[..i]);
    StripIsIdempotent(part[i + 1..]);
    assert ';' !in part[..i] && ';' !in part[i + 1..];
  }

  lemma PutPartKeepsClean(d: Attrs, part: string)
    requires Clean(d) && ';' !in part
    ensures Clean(PutPart(d, part))
  {
    if ':' in part {
      var i := IndexOf(part, ':');
      CutPartIsClean(part);
      PutKeepsClean(d, Strip(part[..i]), Strip(part[i + 1..]));
    }
  }

  lemma {:induction false} PutPartsIsClean(parts: seq<string>)
    requires forall p | p in parts :: ';' !in p
    ensures Clean(PutParts(parts))
    decreases |parts|
  {
    if parts != [] {
      PutPartsIsClean(parts[..|parts| - 1]);
      PutPartKeepsClean(PutParts(parts[..|parts| - 1]), parts[|parts| - 1]);
    }
  }

  lemma ParseIsClean(s: string)
    ensures Clean(Parse(s))
  {
    if s != "" {
      SplitRemovesSeparators(s, ';');
      PutPartsIsClean(Split(s, ';'));
    }
  }

  // ------------------------------------------------------------------------- round trip

  lemma {:induction false} PutNewAppends(d: Attrs, k: string, v: string)
    requires forall i | 0 <= i < |d| :: d[i].0 != k
    ensures Put(d, k, v) == d + [(k, v)]
    decreases |d|
  {
    if d != [] {
      PutNewAppends(d[1..], k, v);
    }
  }

  lemma ItemParses(kv: (string, string))
    requires CleanPair(kv)
    ensures ':' in Item(kv) && ';' !in Item(kv)
    ensures var i := IndexOf(Item(kv), ':');
            Strip(Item(kv)[..i]) == kv.0 && Strip(Item(kv)[i + 1..]) == kv.1
  {
    var s := Item(kv);
    assert s[|kv.0|] == ':' && s[..|kv.0|] == kv.0 && s[|kv.0| + 1..] == kv.1;
    IndexOfFirst(s, ':', |kv.0|);
  }

  lemma {:induction false} IndexOfFirst(s: string, c: char, k: nat)
    requires k < |s| && s[k] == c && c !in s[..k]
    ensures IndexOf(s, c) == k
    decreases |s|
  {
    if k > 0 {
      assert s[0] == s[..k][0];
      assert s[1..][..k - 1] == s[..k][1..];
      IndexOfFirst(s[1..], c, k - 1);
    }
  }

  lemma ItemPutsPair(d: Attrs, kv: (string, string))
    requires CleanPair(kv)
    ensures PutPart(d, Item(kv)) == Put(d, kv.0, kv.1)
  {
    ItemParses(kv);
  }

  lemma PutOneMore(parts: seq<string>, part: string)
    ensures PutParts(parts + [part]) == PutPart(PutParts(parts), part)
  {
    assert (parts + [part])[..|parts|] == parts;
  }

  lemma ItemsOneMore(d: Attrs, kv: (string, string))
    ensures Items(d + [kv]) == Items(d) + [Item(kv)]
  {
    assert (d + [kv])[..|d|] == d;
  }

  lemma CleanFront(front: Attrs, kv: (string, string))
    requires Clean(front + [kv])
    ensures Clean(front) && CleanPair(kv)
    ensures forall i | 0 <= i < |front| :: front[i].0 != kv.0
  {
    var d := front + [kv];
    assert CleanPair(d[|front|]);
    forall i | 0 <= i < |front| ensures CleanPair(front[i]) && front[i].0 != kv.0 {
      assert d[i] == front[i] && CleanPair(d[i]) && d[i].0 != d[|front|].0;
    }
    forall i, j | 0 <= i < j < |front| ensures front[i].0 != front[j].0 {
      assert d[i].0 != d[j].0;
    }
  }

  lemma {:induction false} ItemsPutBack(d: Attrs)
    requires Clean(d)
    ensures PutParts(Items(d)) == d
    decreases |d|
  {
    if d != [] {
      var front, kv := d[..|d| - 1], d[|d| - 1];
      assert d == front + [kv];
      CleanFront(front, kv);
      ItemsPutBack(front);
      ItemsOneMore(front, kv);
      PutOneMore(Items(front), Item(kv));
      ItemPutsPair(front, kv);
      PutNewAppends(front, kv.0, kv.1);
    }
  }

  lemma PrintedIsEmptyOnlyWhenEmpty(d: Attrs)
    requires d != []
    ensures Print(d) != ""
  {
    assert |Items(d)[0]| >= 1;
  }

  /** Printing a dictionary and parsing it again gives it back exactly when it is clean. */
  lemma PrintParseExactlyWhenClean(d: Attrs)
    ensures Parse(Print(d)) == d <==> Clean(d)
  {
    ParseIsClean(Print(d));
    if Clean(d) && d != [] {
      forall p | p in Items(d) ensures ';' !in p {
        var i :| 0 <= i < |d| && p == Items(d)[i];
        ItemParses(d[i]);
      }
      SplitJoin(Items(d), ';');
      ItemsPutBack(d);
      PrintedIsEmptyOnlyWhenEmpty(d);
    }
  }

  /** What the control server parsed survives the access point's printing, for every string. */
  lemma ParsePrintParse(s: string)
    ensures Parse(Print(Parse(s))) == Parse(s)
  {
    ParseIsClean(s);
    PrintParseExactlyWhenClean(Parse(s));
  }

  // ------------------------------------------------------------- what parsing comes to

  /** The part names key k with value v: what stands before its first colon and what stands after it,
      without blanks at the ends. */
  ghost predicate Gives(part: string, k: string, v: string) {
    exists key, value :: part == key + ":" + value && ':' !in key && IsStripped(key, k) && IsStripped(value, v)
  }

  lemma FirstCut(part: string, key: string, value: string)
    requires part == key + ":" + value && ':' !in key
    ensures ':' in part && part[..IndexOf(part, ':')] == key && part[IndexOf(part, ':') + 1..] == value
  {
    assert part[|key|] == ':' && part[..|key|] == key && part[|key| + 1..] == value;
    IndexOfFirst(part, ':', |key|);
  }

  lemma GivesIsCut(part: string, k: string, v: string)
    ensures Gives(part, k, v)
       <==> ':' in part && k == Strip(part[..IndexOf(part, ':')]) && v == Strip(part[IndexOf(part, ':') + 1..])
  {
    if key, value :| part == key + ":" + value && ':' !in key && IsStripped(key, k) && IsStripped(value, v) {
      FirstCut(part, key, value);
      StripIsStripped(key, k);
      StripIsStripped(value, v);
    }
    if ':' in part {
      var i := IndexOf(part, ':');
      assert part == part[..i] + ":" + part[i + 1..];
      StripIsStripped(part[..i], k);
      StripIsStripped(part[i + 1..], v);
    }
  }

  /** After an assignment the key has the value, and every other key the value it had. */
  lemma {:induction false} PutValue(d: Attrs, k: string, v: string, key: string, value: string)
    requires UniqueKeys(d)
    ensures (key, value) in Put(d, k, v) <==> if key == k then value == v else (key, value) in d
    decreases |d|
  {
    if d != [] {
      if d[0].0 != k {
        PutValue(d[1..], k, v, key, value);
      }
      assert d == [d[0]] + d[1..];
    }
  }

  ghost predicate Names(part: string, k: string) {
    exists v :: Gives(part, k, v)
  }

  // Part n gives the key the value, and no later part names the key.
  ghost predicate GivesLast(parts: seq<string>, n: int, k: string, v: string) {
    0 <= n < |parts| && Gives(parts[n], k, v) && forall m | n < m < |parts| :: !Names(parts[m], k)
  }

  /** The last of the parts that name the key gives it the value. */
  ghost predicate LastGives(parts: seq<string>, k: string, v: string) {
    exists n :: GivesLast(parts, n, k, v)
  }

  lemma OnePartMore(front: seq<string>, last: string, k: string, v: string)
    ensures LastGives(front + [last], k, v) <==> Gives(last, k, v) || (!Names(last, k) && LastGives(front, k, v))
  {
    var parts := front + [last];
    forall n | 0 <= n < |front| ensures GivesLast(parts, n, k, v) <==> !Names(last, k) && GivesLast(front, n, k, v) {
      assert parts[|front|] == last && forall m | 0 <= m < |front| :: parts[m] == front[m];
    }
    assert GivesLast(parts, |front|, k, v) <==> Gives(last, k, v);
  }

  // What one part makes of the dictionary.
  lemma PartGives(d: Attrs, part: string, k: string, v: string)
    requires UniqueKeys(d)
    ensures (k, v) in PutPart(d, part) <==> Gives(part, k, v) || (!Names(part, k) && (k, v) in d)
    ensures UniqueKeys(PutPart(d, part))
  {
    forall w {
      GivesIsCut(part, k, w);
    }
    if ':' in part {
      var key, value := Strip(part[..IndexOf(part, ':')]), Strip(part[IndexOf(part, ':') + 1..]);
      PutValue(d, key, value, k, v);
      PutKeepsUnique(d, key, value);
      assert Gives(part, key, value) by {
        GivesIsCut(part, key, value);
      }
    }
  }

  lemma {:induction false} PartsGiveLast(parts: seq<string>, k: string, v: string)
    ensures (k, v) in PutParts(parts) <==> LastGives(parts, k, v)
    ensures UniqueKeys(PutParts(parts))
    decreases |parts|
  {
    if parts != [] {
      var front, last := parts[..|parts| - 1], parts[|parts| - 1];
      PartsGiveLast(front, k, v);
      PartGives(PutParts(front), last, k, v);
      OnePartMore(front, last, k, v);
      assert parts == front + [last];
    }
  }

  /** A key has the value that the last part with that key gives it; parts without a colon count for
      nothing. */
  lemma ParsedValues(s: string, k: string, v: string)
    ensures (k, v) in Parse(s) <==> LastGives(Split(s, ';'), k, v)
  {
    var parts := Split(s, ';');
    PartsGiveLast(parts, k, v);
    if s == "" {
      assert parts == [""] && [""][..0] == [];
      assert PutParts(parts) == PutPart(PutParts([]), "") == [];
    }
    assert Parse(s) == PutParts(parts);
  }

  /** Some part names the first key before any part names the second. */
  ghost predicate NamedBefore(parts: seq<string>, first: string, second: string) {
    exists n :: 0 <= n < |parts| && Names(parts[n], first) && forall m | 0 <= m <= n :: !Names(parts[m], second)
  }

  // Keys keep their places, and a new one comes last.
  lemma {:induction false} PutOrder(d: Attrs, k: string, v: string)
    ensures |d| <= |Put(d, k, v)| <= |d| + 1
    ensures forall i | 0 <= i < |d| :: Put(d, k, v)[i].0 == d[i].0
    ensures |Put(d, k, v)| == |d| + 1 <==> forall i | 0 <= i < |d| :: d[i].0 != k
    ensures |Put(d, k, v)| == |d| + 1 ==> Put(d, k, v)[|d|].0 == k
    decreases |d|
  {
    if d != [] && d[0].0 != k {
      PutOrder(d[1..], k, v);
      assert forall i | 0 < i < |d| :: d[i] == d[1..][i - 1];
    }
  }

  ghost predicate HasKey(d: Attrs, k: string) {
    exists v :: (k, v) in d
  }

  ghost predicate IsNamed(parts: seq<string>, k: string) {
    exists n :: 0 <= n < |parts| && Names(parts[n], k)
  }

  lemma KeyAfterPart(d: Attrs, part: string, k: string)
    requires UniqueKeys(d)
    ensures HasKey(PutPart(d, part), k) <==> Names(part, k) || HasKey(d, k)
  {
    forall v ensures (k, v) in PutPart(d, part) <==> Gives(part, k, v) || (!Names(part, k) && (k, v) in d) {
      PartGives(d, part, k, v);
    }
  }

  lemma {:induction false} KeysAreNamed(parts: seq<string>, k: string)
    ensures HasKey(PutParts(parts), k) <==> IsNamed(parts, k)
    decreases |parts|
  {
    if parts != [] {
      var front, last := parts[..|parts| - 1], parts[|parts| - 1];
      KeysAreNamed(front, k);
      PartsGiveLast(front, k, "");
      KeyAfterPart(PutParts(front), last, k);
      assert forall n | 0 <= n < |front| :: parts[n] == front[n];
    }
  }

  lemma NamedBeforeStays(front: seq<string>, last: string, first: string, second: string)
    requires NamedBefore(front, first, second)
    ensures NamedBefore(front + [last], first, second)
  {
    var n :| 0 <= n < |front| && Names(front[n], first) && forall m | 0 <= m <= n :: !Names(front[m], second);
    assert forall m | 0 <= m <= n :: (front + [last])[m] == front[m];
  }

  lemma NewlyNamed(front: seq<string>, last: string, first: string, second: string)
    requires IsNamed(front, first) && !IsNamed(front, second)
    ensures NamedBefore(front + [last], first, second)
  {
    var n :| 0 <= n < |front| && Names(front[n], first);
    assert forall m | 0 <= m <= n :: (front + [last])[m] == front[m];
  }

  // One more part changes the keys at most by a new one at the end.
  lemma KeysAfterPart(d: Attrs, part: string)
    ensures var d' := PutPart(d, part);
            && (d' == d || |d| <= |d'| <= |d| + 1) && (forall i | 0 <= i < |d| :: d'[i].0 == d[i].0)
            && (|d'| == |d| + 1 ==> !HasKey(d, d'[|d|].0))
  {
    if ':' in part {
      PutOrder(d, Strip(part[..IndexOf(part, ':')]), Strip(part[IndexOf(part, ':') + 1..]));
    }
  }

  lemma {:induction false} PartsInOrder(parts: seq<string>, i: int, j: int)
    requires 0 <= i < j < |PutParts(parts)|
    ensures NamedBefore(parts, PutParts(parts)[i].0, PutParts(parts)[j].0)
    decreases |parts|
  {
    var front, last := parts[..|parts| - 1], parts[|parts| - 1];
    var before, after := PutParts(front), PutParts(parts);
    assert parts == front + [last];
    KeysAfterPart(before, last);
    if j < |before| {
      PartsInOrder(front, i, j);
      NamedBeforeStays(front, last, after[i].0, after[j].0);
    } else {
      assert before[i] in before;
      assert HasKey(before, after[i].0);
      KeysAreNamed(front, after[i].0);
      KeysAreNamed(front, after[j].0);
      NewlyNamed(front, last, after[i].0, after[j].0);
    }
  }

  /** The keys stand in the order in which the parts first name them. */
  lemma ParsedOrder(s: string, i: int, j: int)
    requires 0 <= i < j < |Parse(s)|
    ensures NamedBefore(Split(s, ';'), Parse(s)[i].0, Parse(s)[j].0)
  {
    PartsInOrder(Split(s, ';'), i, j);
  }

  /** The text of a dictionary: key, colon, value, with a semicolon between one pair and the next. */
  lemma PrintedText(d: Attrs, k: string, v: string)
    ensures Print([]) == "" && Print([(k, v)]) == k + ":" + v
    ensures d != [] ==> Print(d + [(k, v)]) == Print(d) + ";" + (k + ":" + v)
  {
    PrintedAlone((k, v));
    ItemsOneMore(d, (k, v));
    if d != [] {
      JoinOneMore(Items(d), Item((k, v)), ';');
    }
  }

  lemma PrintedAlone(kv: (string, string))
    ensures Items([kv]) == [Item(kv)] && Print([kv]) == Item(kv)
  {
    assert Items([kv])[0] == Item(kv);
  }
}
