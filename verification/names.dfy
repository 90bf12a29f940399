/** Segment file names: twenty decimal digits and an extension, in the order of the numbers they stand for. */
module Names {
  import opened Wrappers
  import opened Directory

  const EXT: string := ".wal"
  const NAME_WIDTH: nat := 20
  const TEMP_SUFFIX: string := ".tmp"
  const TWO_64: nat := 0x1_0000_0000_0000_0000

  function Pow10(w: nat): (p: nat)
    ensures p > 0
  {
    if w == 0 then 1 else 10 * Pow10(w - 1)
  }

  predicate IsDigit(c: char) {
    '0' <= c <= '9'
  }

  function DigitOf(d: nat): (c: char)
    requires d < 10
    ensures IsDigit(c)
  {
    '0' + d as char
  }

  function ValueOf(c: char): (d: nat)
    requires IsDigit(c)
    ensures d < 10 && DigitOf(d) == c
  {
    (c - '0') as nat
  }

  /** The low `w` decimal digits of `n`, most significant first. */
  function Digits(n: nat, w: nat): (s: string)
    ensures |s| == w && AllDigits(s)
    decreases w, n
  {
    if w == 0 then "" else Digits(n / 10, w - 1) + [DigitOf(n % 10)]
  }

  predicate AllDigits(s: string) {
    forall i | 0 <= i < |s| :: IsDigit(s[i])
  }

  function Number(s: string): (n: nat)
    requires AllDigits(s)
    ensures n < Pow10(|s|)
  {
    if s == "" then 0 else 10 * Number(s[..|s| - 1]) + ValueOf(s[|s| - 1])
  }

  /** The file name of the segment based at `base`. */
  function Name(base: nat): string
    requires base < TWO_64
  {
    Digits(base, NAME_WIDTH) + EXT
  }

  predicate HasSuffix(s: string, suffix: string) {
    |s| >= |suffix| && s[|s| - |suffix|..] == suffix
  }

  /** The base a file name stands for; foreign names stand for none. */
  function ParseBaseLSN(name: string): Option<nat> {
    if !HasSuffix(name, EXT) then None
    else
      var stem := name[..|name| - |EXT|];
      if |stem| != NAME_WIDTH || !AllDigits(stem) || Number(stem) >= TWO_64 then None else Some(Number(stem))
  }

  lemma {:induction false} DigitsRoundTrip(n: nat, w: nat)
    requires n < Pow10(w)
    ensures Number(Digits(n, w)) == n
    decreases w, n
  {
    if w > 0 {
      DigitsRoundTrip(n / 10, w - 1);
      var s := Digits(n, w);
      assert s[..w - 1] == Digits(n / 10, w - 1);
      assert ValueOf(s[w - 1]) == n % 10;
    }
  }

  lemma {:induction false} NumberRoundTrip(s: string)
    requires AllDigits(s)
    ensures Digits(Number(s), |s|) == s
    decreases |s|
  {
    if s != "" {
      var front := s[..|s| - 1];
      NumberRoundTrip(front);
      assert Number(s) / 10 == Number(front) && Number(s) % 10 == ValueOf(s[|s| - 1]);
      assert s == front + [s[|s| - 1]];
    }
  }

  lemma Wide()
    ensures TWO_64 < Pow10(NAME_WIDTH)
  {
    assert Pow10(5) == 100_000;
    assert Pow10(10) == 100_000 * 100_000;
    assert Pow10(15) == 100_000 * 100_000 * 100_000;
  }

  /** A base comes back from its name, and a name that parses is the name of its base. */
  lemma NamesInvert(base: nat, name: string)
    ensures base < TWO_64 ==> ParseBaseLSN(Name(base)) == Some(base)
    ensures ParseBaseLSN(name) == Some(base) ==> base < TWO_64 && name == Name(base)
  {
    Wide();
    if base < TWO_64 {
      DigitsRoundTrip(base, NAME_WIDTH);
      assert Name(base)[..NAME_WIDTH] == Digits(base, NAME_WIDTH);
    }
    if ParseBaseLSN(name) == Some(base) {
      var stem := name[..|name| - |EXT|];
      NumberRoundTrip(stem);
      assert name == stem + EXT;
    }
  }

  /** The name is the base in twenty decimal digits and the extension of a segment file. */
  lemma NameShape(base: nat)
    requires base < TWO_64
    ensures |Name(base)| == 24 && Name(base)[20..] == ".wal"
    ensures AllDigits(Name(base)[..20]) && Number(Name(base)[..20]) == base
  {
    Wide();
    DigitsRoundTrip(base, NAME_WIDTH);
    assert Name(base)[..20] == Digits(base, NAME_WIDTH);
  }

  /** Byte-wise order of strings. */
  predicate SortsBefore(s: string, t: string) {
    t != "" && (s == "" || s[0] < t[0] || (s[0] == t[0] && SortsBefore(s[1..], t[1..])))
  }

  lemma {:induction false} BelowSnoc(s: string, t: string, c: char, d: char)
    requires |s| == |t|
    ensures SortsBefore(s + [c], t + [d]) <==> SortsBefore(s, t) || (s == t && c < d)
    decreases |s|
  {
    if s == "" {
    } else {
      assert (s + [c])[1..] == s[1..] + [c] && (t + [d])[1..] == t[1..] + [d];
      BelowSnoc(s[1..], t[1..], c, d);
      assert s == [s[0]] + s[1..] && t == [t[0]] + t[1..];
    }
  }

  lemma {:induction false} DigitsOrdered(a: nat, b: nat, w: nat)
    requires a < Pow10(w) && b < Pow10(w)
    ensures SortsBefore(Digits(a, w), Digits(b, w)) <==> a < b
    decreases w, a
  {
    hide AllDigits, IsDigit, Number;
    if w > 0 {
      DigitsOrdered(a / 10, b / 10, w - 1);
      BelowSnoc(Digits(a / 10, w - 1), Digits(b / 10, w - 1), DigitOf(a % 10), DigitOf(b % 10));
      DigitsRoundTrip(a / 10, w - 1);
      DigitsRoundTrip(b / 10, w - 1);
    }
  }

  lemma {:induction false} BelowSameEnd(s: string, t: string, e: string)
    requires |s| == |t|
    ensures SortsBefore(s + e, t + e) <==> SortsBefore(s, t)
    decreases |s|
  {
    if s == "" {
      BelowIrreflexive(e);
      assert s + e == e && t + e == e;
    } else {
      assert (s + e)[1..] == s[1..] + e && (t + e)[1..] == t[1..] + e;
      BelowSameEnd(s[1..], t[1..], e);
    }
  }

  lemma {:induction false} BelowIrreflexive(s: string)
    ensures !SortsBefore(s, s)
    decreases |s|
  {
    if s != "" {
      BelowIrreflexive(s[1..]);
    }
  }

  /** The order of the names is the order of the bases. */
  lemma NamesOrdered(a: nat, b: nat)
    requires a < TWO_64 && b < TWO_64
    ensures SortsBefore(Name(a), Name(b)) <==> a < b
  {
    Wide();
    DigitsOrdered(a, b, NAME_WIDTH);
    BelowSameEnd(Digits(a, NAME_WIDTH), Digits(b, NAME_WIDTH), EXT);
  }

  /** A leftover of an interrupted rewrite. */
  predicate IsTemp(name: string) {
    HasSuffix(name, EXT + TEMP_SUFFIX)
  }

  /** No temp file is ever listed as a segment. */
  lemma TempIsNoSegment(name: string)
    requires |name| >= 8 && name[|name| - 8..] == ".wal.tmp"
    ensures IsTemp(name) && ParseBaseLSN(name) == None
  {
    assert EXT + TEMP_SUFFIX == ".wal.tmp";
    SuffixEnds(name, EXT + TEMP_SUFFIX);
    SuffixEnds(name, EXT);
  }

  lemma SuffixEnds(s: string, suffix: string)
    ensures HasSuffix(s, suffix) && suffix != "" ==> s[|s| - 1] == suffix[|suffix| - 1]
  {
    if HasSuffix(s, suffix) && suffix != "" {
      assert s[|s| - |suffix|..][|suffix| - 1] == s[|s| - 1];
    }
  }

  datatype Entry = Entry(name: string, isDir: bool)

  /** Where `base` goes in an ascending list. */
  method Place(bases: seq<nat>, base: nat) returns (k: nat)
    requires Ascending(bases) && base !in bases
    ensures k <= |bases| && Ascending(bases[..k] + [base] + bases[k..])
  {
    k := 0;
    while k < |bases| && bases[k] < base
      invariant k <= |bases| && forall i | 0 <= i < k :: bases[i] < base
    {
      k := k + 1;
    }
    assert k < |bases| ==> bases[k] != base;
  }

  predicate Distinct(entries: seq<Entry>) {
    forall i, j | 0 <= i < j < |entries| :: entries[i].name != entries[j].name
  }

  /** The bases of the segment files among the entries of a directory, in ascending order. Directories and foreign
      names are passed over. */
  method List(entries: seq<Entry>) returns (bases: seq<nat>)
    requires Distinct(entries)
    ensures Ascending(bases)
    ensures forall b: nat :: b in bases <==> b < TWO_64 && Entry(Name(b), false) in entries
  {
    bases := [];
    for n := 0 to |entries|
      invariant Ascending(bases)
      invariant forall b: nat :: b in bases <==> b < TWO_64 && Entry(Name(b), false) in entries[..n]
    {
      var e := entries[n];
      assert entries[..n + 1] == entries[..n] + [e];
      if e.isDir {
        continue;
      }
      var parsed := ParseBaseLSN(e.name);
      ParsedIs(e.name);
      if parsed.Some? {
        var base := parsed.value;
        SeenOnce(entries, n, e);
        assert Entry(Name(base), false) == e;
        var k := Place(bases, base);
        ghost var before := bases;
        bases := bases[..k] + [base] + bases[k..];
        assert forall b :: b in bases <==> b in before || b == base;
      }
    }
    assert entries[..|entries|] == entries;
  }

  /** A name parses exactly when it is the name of a base. */
  lemma ParsedIs(name: string)
    ensures forall b: nat | b < TWO_64 :: Name(b) == name <==> ParseBaseLSN(name) == Some(b)
    ensures ParseBaseLSN(name).Some? ==> ParseBaseLSN(name).value < TWO_64
  {
    hide ParseBaseLSN, Name;
    forall b: nat | b < TWO_64
      ensures Name(b) == name <==> ParseBaseLSN(name) == Some(b)
    {
      NamesInvert(b, name);
    }
    if ParseBaseLSN(name).Some? {
      NamesInvert(ParseBaseLSN(name).value, name);
    }
  }

  lemma SeenOnce(entries: seq<Entry>, n: nat, e: Entry)
    requires Distinct(entries) && n < |entries| && entries[n] == e
    ensures e !in entries[..n]
  {
  }

  /** The listing of a directory, smallest base first. */
  method ListBases(keys: set<nat>) returns (names: seq<nat>)
    ensures Listing(names, keys)
  {
    names := [];
    var rest := keys;
    while rest != {}
      invariant rest <= keys && Listing(names, keys - rest)
      decreases |rest|
    {
      var b :| b in rest;
      var k := Place(names, b);
      ghost var before := names;
      names := names[..k] + [b] + names[k..];
      assert forall x :: x in names <==> x in before || x == b;
      rest := rest - {b};
    }
    assert keys - rest == keys;
  }
}
