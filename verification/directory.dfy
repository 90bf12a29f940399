/** The log directory: segment files by base LSN, temp files, and the single steps that change it. */
module Directory {
  import opened Bytes

  /** A segment file after its header. The first `synced` bytes are on stable storage. */
  datatype File = File(headerOk: bool, body: seq<byte>, synced: nat)

  type Files = map<nat, File>

  /** `unlinked` keeps what an already opened handle of a removed file still reads. */
  datatype Dir = Dir(files: Files, temps: Files, unlinked: map<nat, seq<byte>>)

  const EMPTY_FILE := File(true, [], 0)

  datatype Step =
    | Create(base: nat)
    | Write(base: nat, bytes: seq<byte>)
    | Fsync(base: nat)
    | Chop(base: nat, size: nat)
    | Remove(base: nat)
    | CreateTemp(base: nat)
    | WriteTemp(base: nat, bytes: seq<byte>)
    | FsyncTemp(base: nat)
    | RemoveTemp(base: nat)
    | Rename(base: nat)

  function Appended(f: File, bytes: seq<byte>): File {
    f.(body := f.body + bytes)
  }

  function Synced(f: File): File {
    f.(synced := |f.body|)
  }

  /** Truncating a file also syncs it. */
  function Chopped(f: File, size: nat): File {
    if size <= |f.body| then f.(body := f.body[..size], synced := size) else f
  }

  function Updated(files: Files, base: nat, g: File -> File): Files {
    if base in files then files[base := g(files[base])] else files
  }

  function Apply(d: Dir, step: Step): Dir {
    match step
    case Create(b) => if b in d.files then d else d.(files := d.files[b := EMPTY_FILE])
    case Write(b, bytes) => d.(files := Updated(d.files, b, f => Appended(f, bytes)))
    case Fsync(b) => d.(files := Updated(d.files, b, f => Synced(f)))
    case Chop(b, size) => d.(files := Updated(d.files, b, f => Chopped(f, size)))
    case Remove(b) =>
      if b in d.files then d.(files := d.files - {b}, unlinked := d.unlinked[b := d.files[b].body]) else d
    case CreateTemp(b) => d.(temps := d.temps[b := EMPTY_FILE])
    case WriteTemp(b, bytes) => d.(temps := Updated(d.temps, b, f => Appended(f, bytes)))
    case FsyncTemp(b) => d.(temps := Updated(d.temps, b, f => Synced(f)))
    case RemoveTemp(b) => d.(temps := d.temps - {b})
    case Rename(b) => if b in d.temps then d.(files := d.files[b := d.temps[b]], temps := d.temps - {b}) else d
  }

  /** A crash keeps every synced byte and some prefix of the others. What survives may still be
      unsynced: a killed process loses nothing, a power failure loses what was not synced. */
  predicate CrashedFile(f: File, g: File) {
    && g.headerOk == f.headerOk
    && f.synced <= g.synced <= |g.body| <= |f.body|
    && g.body == f.body[..|g.body|]
  }

  /** Directory steps are durable in order; temp files are in any condition. */
  ghost predicate CrashImage(d: Dir, c: Dir) {
    && c.files.Keys == d.files.Keys
    && (forall b | b in d.files :: CrashedFile(d.files[b], c.files[b]))
    && c.unlinked == map[]
  }

  predicate Ascending(s: seq<nat>) {
    forall i, j | 0 <= i < j < |s| :: s[i] < s[j]
  }

  /** `names` lists exactly `keys`, smallest first. */
  ghost predicate Listing(names: seq<nat>, keys: set<nat>) {
    Ascending(names) && forall b :: b in names <==> b in keys
  }

  ghost function Elements(s: seq<nat>): set<nat> {
    set b | b in s
  }

  predicate Least(m: nat, s: set<nat>) {
    m in s && forall x | x in s :: m <= x
  }

  lemma SmallestOf(s: set<nat>) returns (m: nat)
    requires s != {}
    ensures Least(m, s)
    decreases s
  {
    var k :| k in s;
    var rest := s - {k};
    m := k;
    if rest != {} {
      var l := SmallestOf(rest);
      m := if l < k then l else k;
    }
    assert forall x | x in s :: x == k || x in rest;
  }

  lemma SmallestExists(s: set<nat>)
    requires s != {}
    ensures exists m :: Least(m, s)
  {
    var m := SmallestOf(s);
  }

  ghost function SortedKeys(keys: set<nat>): (names: seq<nat>)
    ensures Listing(names, keys)
  {
    if keys == {} then []
    else
      SmallestExists(keys);
      var m :| Least(m, keys);
      [m] + SortedKeys(keys - {m})
  }

  /** A directory has only one listing. */
  lemma {:induction false} ListingUnique(a: seq<nat>, b: seq<nat>, keys: set<nat>)
    requires Listing(a, keys) && Listing(b, keys)
    ensures a == b
    decreases |a|
  {
    if a == [] {
      assert forall i | 0 <= i < |b| :: b[i] in b;
    } else {
      assert a[0] in keys && a[0] in b;
      assert b[0] in keys && b[0] in a;
      assert a[0] == b[0];
      forall x
        ensures x in a[1..] <==> x in keys - {a[0]}
        ensures x in b[1..] <==> x in keys - {a[0]}
      {
      }
      ListingUnique(a[1..], b[1..], keys - {a[0]});
      assert a == [a[0]] + a[1..] && b == [b[0]] + b[1..];
    }
  }

  lemma ListingSuffix(names: seq<nat>, keys: set<nat>, m: nat)
    requires Listing(names, keys) && m <= |names|
    ensures Listing(names[m..], keys - Elements(names[..m]))
  {
    forall b
      ensures b in names[m..] <==> b in keys - Elements(names[..m])
    {
    }
  }

  lemma ListingPrefix(names: seq<nat>, keys: set<nat>)
    requires Listing(names, keys) && names != []
    ensures Listing(names[..|names| - 1], keys - {names[|names| - 1]})
  {
    var n := |names| - 1;
    forall b
      ensures b in names[..n] <==> b in keys - {names[n]}
    {
    }
  }
}
