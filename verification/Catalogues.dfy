/** `FileManager::list_files`: filtering a directory's entries and sorting them by name. */
module Catalogues {
  import opened Wrappers
  import opened Text
  import opened Protocol

  /** What the filesystem says of an entry: a regular file whose size it knows or fails to tell,
      something else, or nothing but an error. */
  datatype Status = Regular(size: Option<U64>) | Other | Unreadable

  datatype DirEntry = DirEntry(name: Bytes, status: Status)

  predicate Hidden(e: DirEntry) { e.name != [] && e.name[0] == '.' }

  predicate Shown(e: DirEntry) { e.status.Regular? && !Hidden(e) && e.status.size.Some? }

  /** The entry leaves the error code set, which ends the loop at the next entry. */
  predicate Breaks(e: DirEntry) { e.status.Unreadable? || (e.status.Regular? && !Hidden(e) && e.status.size.None?) }

  function Info(e: DirEntry): seq<MediaFileInfo> {
    if Shown(e) then [MediaFileInfo(e.name, e.status.size.value)] else []
  }

  /** The entries the loop collects, in iteration order. */
  function Listed(entries: seq<DirEntry>): seq<MediaFileInfo> {
    if entries == [] || Breaks(entries[0]) then [] else Info(entries[0]) + Listed(entries[1..])
  }

  // ---------------------------------------------------------------- the order of names

  /** std::string's operator<. */
  predicate Less(a: Bytes, b: Bytes) {
    if b == [] then false
    else if a == [] then true
    else if a[0] != b[0] then a[0] < b[0]
    else Less(a[1..], b[1..])
  }

  lemma {:induction false} LessIsTotal(a: Bytes, b: Bytes)
    ensures Less(a, b) || Less(b, a) || a == b
    ensures !(Less(a, b) && Less(b, a)) && !Less(a, a)
  {
    if a != [] && b != [] { LessIsTotal(a[1..], b[1..]); }
    if a != [] { LessIsTotal(a[1..], a[1..]); }
    assert a != [] && b != [] && a[0] == b[0] && a[1..] == b[1..] ==> a == [a[0]] + a[1..] == b;
  }

  lemma {:induction false} LessIsTransitive(a: Bytes, b: Bytes, c: Bytes)
    requires Less(a, b) && Less(b, c)
    ensures Less(a, c)
  {
    if a != [] && a[0] == b[0] && b[0] == c[0] { LessIsTransitive(a[1..], b[1..], c[1..]); }
  }

  /** The names differ first at k: there the smaller one has ended or has the smaller byte. */
  predicate FirstDifference(a: Bytes, b: Bytes, k: nat) {
    k <= |a| && k < |b| && a[..k] == b[..k] && (k == |a| || a[k] < b[k])
  }

  /** The order is by the first differing byte, and a proper prefix is less. */
  lemma {:induction false} LessByFirstDifference(a: Bytes, b: Bytes)
    ensures Less(a, b) <==> exists k: nat :: FirstDifference(a, b, k)
    ensures a < b ==> Less(a, b)
  {
    if b != [] && a != [] && a[0] == b[0] {
      LessByFirstDifference(a[1..], b[1..]);
      if Less(a, b) {
        var k: nat :| FirstDifference(a[1..], b[1..], k);
        assert a[..k + 1] == [a[0]] + a[1..][..k] && b[..k + 1] == [b[0]] + b[1..][..k];
        assert FirstDifference(a, b, k + 1);
      }
      forall k: nat | FirstDifference(a, b, k) ensures Less(a, b) {
        assert k > 0;
        assert a[1..][..k - 1] == a[..k][1..] && b[1..][..k - 1] == b[..k][1..];
        assert FirstDifference(a[1..], b[1..], k - 1);
      }
      assert a < b ==> a[1..] < b[1..];
    } else if b != [] {
      assert a == [] || a[0] < b[0] ==> FirstDifference(a, b, 0);
      forall k: nat | FirstDifference(a, b, k) ensures Less(a, b) {
        if k > 0 { assert a[..k][0] == b[..k][0]; }
      }
    }
  }

  predicate Ascending(files: seq<MediaFileInfo>) {
    forall i, j | 0 <= i < j < |files| :: Less(files[i].filename, files[j].filename)
  }

  predicate DistinctNames(files: seq<MediaFileInfo>) {
    forall i, j | 0 <= i < j < |files| :: files[i].filename != files[j].filename
  }

  function Insert(f: MediaFileInfo, files: seq<MediaFileInfo>): seq<MediaFileInfo> {
    if files == [] || !Less(files[0].filename, f.filename) then [f] + files else [files[0]] + Insert(f, files[1..])
  }

  function Sort(files: seq<MediaFileInfo>): seq<MediaFileInfo> {
    if files == [] then [] else Insert(files[0], Sort(files[1..]))
  }

  lemma {:induction false} InsertElements(f: MediaFileInfo, files: seq<MediaFileInfo>)
    ensures multiset(Insert(f, files)) == multiset([f]) + multiset(files)
  {
    if files != [] && Less(files[0].filename, f.filename) {
      InsertElements(f, files[1..]);
      assert files == [files[0]] + files[1..];
    }
  }

  lemma {:induction false} InsertAscends(f: MediaFileInfo, files: seq<MediaFileInfo>)
    requires Ascending(files) && forall g | g in files :: g.filename != f.filename
    ensures Ascending(Insert(f, files))
  {
    if files != [] {
      LessIsTotal(files[0].filename, f.filename);
      InsertElements(f, files[1..]);
      if Less(files[0].filename, f.filename) {
        InsertAscends(f, files[1..]);
        forall g | g in Insert(f, files[1..]) ensures Less(files[0].filename, g.filename) {
          assert g in multiset(Insert(f, files[1..]));
          assert g == f || g in files[1..];
        }
      } else {
        forall g | g in files[1..] ensures Less(f.filename, g.filename) {
          LessIsTransitive(f.filename, files[0].filename, g.filename);
        }
      }
    }
  }

  /** Sorting keeps the entries and puts them in strictly ascending order of name. */
  lemma {:induction false} SortSorts(files: seq<MediaFileInfo>)
    requires DistinctNames(files)
    ensures multiset(Sort(files)) == multiset(files) && Ascending(Sort(files))
  {
    if files != [] {
      var rest := files[1..];
      SortSorts(rest);
      InsertElements(files[0], Sort(rest));
      assert files == [files[0]] + rest;
      forall g | g in Sort(rest) ensures g.filename != files[0].filename {
        assert g in multiset(Sort(rest));
        assert g in rest;
      }
      InsertAscends(files[0], Sort(rest));
    }
  }

  lemma SmallestFirst(a: seq<MediaFileInfo>, f: MediaFileInfo)
    requires Ascending(a) && f in a
    ensures f == a[0] || Less(a[0].filename, f.filename)
  {
    var i :| 0 <= i < |a| && a[i] == f;
  }

  lemma SameElements(a: seq<MediaFileInfo>, b: seq<MediaFileInfo>)
    requires multiset(a) == multiset(b) && a != []
    ensures b != [] && a[0] in b && b[0] in a
    ensures a[0] == b[0] ==> multiset(a[1..]) == multiset(b[1..])
  {
    assert a[0] in multiset(b);
    assert b[0] in multiset(a);
    WithoutFirst(a);
    WithoutFirst(b);
  }

  lemma WithoutFirst(a: seq<MediaFileInfo>)
    requires a != []
    ensures multiset(a[1..]) == multiset(a) - multiset{a[0]}
  {
    assert a == [a[0]] + a[1..];
  }

  /** There is only one ascending arrangement, so it does not matter how std::sort works. */
  lemma {:induction false} AscendingIsUnique(a: seq<MediaFileInfo>, b: seq<MediaFileInfo>)
    requires Ascending(a) && Ascending(b) && multiset(a) == multiset(b)
    ensures a == b
  {
    if a == [] {
      assert |multiset(b)| == 0;
    } else {
      hide Less;
      SameElements(a, b);
      SmallestFirst(a, b[0]);
      SmallestFirst(b, a[0]);
      LessIsTotal(a[0].filename, b[0].filename);
      assert a[0] == b[0];
      AscendingIsUnique(a[1..], b[1..]);
      assert a == [a[0]] + a[1..] && b == [b[0]] + b[1..];
    }
  }

  // ---------------------------------------------------------------- list_files

  function Catalogue(entries: seq<DirEntry>): seq<MediaFileInfo> { Sort(Listed(entries)) }

  predicate NoBreaks(entries: seq<DirEntry>) { forall i | 0 <= i < |entries| :: !Breaks(entries[i]) }

  predicate DistinctEntries(entries: seq<DirEntry>) {
    forall i, j | 0 <= i < j < |entries| :: entries[i].name != entries[j].name
  }

  lemma {:induction false} ListedAppend(xs: seq<DirEntry>, ys: seq<DirEntry>)
    requires NoBreaks(xs)
    ensures Listed(xs + ys) == Listed(xs) + Listed(ys)
  {
    if xs == [] {
      assert xs + ys == ys;
    } else {
      assert (xs + ys)[1..] == xs[1..] + ys;
      ListedAppend(xs[1..], ys);
    }
  }

  lemma {:induction false} ListedFrom(entries: seq<DirEntry>)
    requires DistinctEntries(entries)
    ensures forall f | f in Listed(entries) :: exists i :: 0 <= i < |entries| && entries[i].name == f.filename
    ensures DistinctNames(Listed(entries))
  {
    if entries != [] && !Breaks(entries[0]) {
      ListedFrom(entries[1..]);
      forall f | f in Listed(entries[1..])
        ensures f.filename != entries[0].name && exists i :: 0 <= i < |entries| && entries[i].name == f.filename
      {
        var i :| 0 <= i < |entries[1..]| && entries[1..][i].name == f.filename;
        assert entries[i + 1].name == f.filename;
      }
    }
  }

  lemma ListedMiddle(xs: seq<DirEntry>, e: DirEntry, ys: seq<DirEntry>)
    requires NoBreaks(xs) && !Breaks(e)
    ensures multiset(Listed(xs + ([e] + ys))) == multiset(Info(e)) + multiset(Listed(xs + ys))
  {
    ListedAppend(xs, ys);
    ListedAppend(xs, [e] + ys);
    assert ([e] + ys)[1..] == ys;
    assert Listed([e] + ys) == Info(e) + Listed(ys);
  }

  /** Without a stat error the iteration order does not matter for what is collected. */
  lemma {:induction false} ListedElements(a: seq<DirEntry>, b: seq<DirEntry>)
    requires multiset(a) == multiset(b) && NoBreaks(a) && NoBreaks(b)
    ensures multiset(Listed(a)) == multiset(Listed(b))
    decreases |a|
  {
    hide Breaks, Info, Listed;
    if a == [] {
      assert |multiset(b)| == 0;
    } else {
      assert a[0] in multiset(b);
      var i :| 0 <= i < |b| && b[i] == a[0];
      TakeOut(a, 0);
      TakeOut(b, i);
      ListedElements(a[..0] + a[1..], b[..i] + b[i + 1..]);
    }
  }

  lemma TakeOut(b: seq<DirEntry>, i: nat)
    requires NoBreaks(b) && i < |b|
    ensures var rest := b[..i] + b[i + 1..];
      && multiset(rest) == multiset(b) - multiset([b[i]]) && NoBreaks(rest)
      && multiset(Listed(b)) == multiset(Info(b[i])) + multiset(Listed(rest))
  {
    hide Breaks, Info, Listed;
    var xs, ys := b[..i], b[i + 1..];
    assert b == xs + ([b[i]] + ys);
    ListedMiddle(xs, b[i], ys);
  }

  lemma {:induction false} NothingShownNothingListed(entries: seq<DirEntry>)
    requires forall i | 0 <= i < |entries| :: !Shown(entries[i])
    ensures Listed(entries) == []
  {
    if entries != [] { NothingShownNothingListed(entries[1..]); }
  }

  lemma NoBreaksOfPermutation(a: seq<DirEntry>, b: seq<DirEntry>)
    requires multiset(a) == multiset(b)
    ensures NoBreaks(a) ==> NoBreaks(b)
    ensures (forall i | 0 <= i < |a| :: !Shown(a[i])) ==> (forall i | 0 <= i < |b| :: !Shown(b[i]))
    ensures |a| == |b|
  {
    assert |multiset(a)| == |a| && |multiset(b)| == |b|;
    forall i | 0 <= i < |b| ensures b[i] in a {
      assert b[i] in multiset(b);
    }
  }

  /** The catalogue is the same in whatever order the directory yields its entries. */
  ghost predicate OrderIndependent(entries: seq<DirEntry>) {
    forall other: seq<DirEntry> | multiset(other) == multiset(entries) && DistinctEntries(other) ::
      Catalogue(other) == Catalogue(entries)
  }

  function BroughtToFront(entries: seq<DirEntry>, i: nat): (other: seq<DirEntry>)
    requires i < |entries|
    ensures |other| == |entries|
    ensures forall k | 0 <= k < |other| :: other[k] == entries[Before(i, k)]
  {
    [entries[i]] + (entries[..i] + entries[i + 1..])
  }

  lemma BringToFront(entries: seq<DirEntry>, i: nat) returns (other: seq<DirEntry>)
    requires i < |entries| && DistinctEntries(entries)
    ensures other != [] && other[0] == entries[i] && multiset(other) == multiset(entries) && DistinctEntries(other)
  {
    other := BroughtToFront(entries, i);
    assert entries == entries[..i] + ([entries[i]] + entries[i + 1..]);
    assert DistinctEntries(other) by {
      hide BroughtToFront;
    }
  }

  /** Where the element at k came from. */
  function Before(i: nat, k: nat): nat { if k == 0 then i else if k <= i then k - 1 else k }

  lemma SortKeepsLength(files: seq<MediaFileInfo>)
    requires DistinctNames(files)
    ensures |Sort(files)| == |files|
  {
    SortSorts(files);
    assert |multiset(Sort(files))| == |Sort(files)| && |multiset(files)| == |files|;
  }

  /** Because a stat error of one entry ends the whole loop, the catalogue depends on the directory's
      iteration order exactly when some entry has such an error and some other could be listed. */
  lemma CatalogueOrder(entries: seq<DirEntry>)
    requires DistinctEntries(entries)
    ensures OrderIndependent(entries) <==>
      NoBreaks(entries) || forall i | 0 <= i < |entries| :: !Shown(entries[i])
  {
    if NoBreaks(entries) || forall i | 0 <= i < |entries| :: !Shown(entries[i]) {
      forall other: seq<DirEntry> | multiset(other) == multiset(entries) && DistinctEntries(other)
        ensures Catalogue(other) == Catalogue(entries)
      {
        SameCatalogue(entries, other);
      }
    } else {
      var b :| 0 <= b < |entries| && Breaks(entries[b]);
      var v :| 0 <= v < |entries| && Shown(entries[v]);
      var first := BringToFront(entries, b);
      var second := BringToFront(entries, v);
      assert Catalogue(first) == [];
      ListedFrom(second);
      SortKeepsLength(Listed(second));
      assert |Catalogue(second)| > 0;
    }
  }

  lemma SameCatalogue(a: seq<DirEntry>, b: seq<DirEntry>)
    requires multiset(a) == multiset(b) && DistinctEntries(a) && DistinctEntries(b)
    requires NoBreaks(a) || forall i | 0 <= i < |a| :: !Shown(a[i])
    ensures Catalogue(a) == Catalogue(b)
  {
    NoBreaksOfPermutation(a, b);
    if NoBreaks(a) {
      ListedElements(a, b);
      ListedFrom(a);
      ListedFrom(b);
      SortSorts(Listed(a));
      SortSorts(Listed(b));
      AscendingIsUnique(Catalogue(a), Catalogue(b));
    } else {
      NothingShownNothingListed(a);
      NothingShownNothingListed(b);
    }
  }

  /** The catalogue holds exactly what the loop collected, in strictly ascending order of name. */
  lemma CatalogueIsSorted(entries: seq<DirEntry>)
    requires DistinctEntries(entries)
    ensures Ascending(Catalogue(entries)) && multiset(Catalogue(entries)) == multiset(Listed(entries))
  {
    ListedFrom(entries);
    SortSorts(Listed(entries));
  }

  // ---------------------------------------------------------------- which entries are listed

  /** Asking the filesystem about the entry fails, where the loop asks. */
  predicate AskingFails(e: DirEntry) { e.status == Unreadable || (e.status == Regular(None) && !("." <= e.name)) }

  /** The i-th entry is a regular file that is listed as f: its name does not begin with a dot, and no
      entry before it fails. */
  predicate ListedAs(entries: seq<DirEntry>, i: nat, f: MediaFileInfo) {
    && i < |entries| && entries[i] == DirEntry(f.filename, Regular(Some(f.size))) && !("." <= f.filename)
    && forall j | 0 <= j < i :: !AskingFails(entries[j])
  }

  lemma OneListed(e: DirEntry, f: MediaFileInfo)
    ensures Breaks(e) <==> AskingFails(e)
    ensures f in Info(e) <==> e == DirEntry(f.filename, Regular(Some(f.size))) && !("." <= f.filename)
  {
    assert "." <= e.name <==> e.name != [] && e.name[0] == '.';
  }

  lemma {:induction false} ListedWhich(entries: seq<DirEntry>, f: MediaFileInfo)
    ensures f in Listed(entries) <==> exists i: nat :: ListedAs(entries, i, f)
  {
    hide Breaks, Info, AskingFails;
    if entries != [] {
      var e, rest := entries[0], entries[1..];
      OneListed(e, f);
      ListedWhich(rest, f);
      if f in Info(e) { assert ListedAs(entries, 0, f); }
      if !AskingFails(e) {
        forall i: nat | ListedAs(rest, i, f) ensures ListedAs(entries, i + 1, f) {
          assert forall j | 0 < j <= i :: entries[j] == rest[j - 1];
        }
      }
      forall i: nat | ListedAs(entries, i, f) ensures f in Listed(entries) {
        assert !AskingFails(e) || i == 0;
        if i > 0 {
          assert forall j | 0 <= j < i - 1 :: rest[j] == entries[j + 1];
          assert ListedAs(rest, i - 1, f);
        } else {
          AListedFileIsNoFailure(e, f);
        }
      }
    }
  }

  lemma AListedFileIsNoFailure(e: DirEntry, f: MediaFileInfo)
    requires e == DirEntry(f.filename, Regular(Some(f.size)))
    ensures !AskingFails(e)
  {
  }

  /** The catalogue holds exactly the regular files whose name does not begin with a dot, with their
      sizes, of the entries before the first about which the filesystem cannot be asked. */
  lemma CatalogueHolds(entries: seq<DirEntry>, f: MediaFileInfo)
    requires DistinctEntries(entries)
    ensures f in Catalogue(entries) <==> exists i: nat :: ListedAs(entries, i, f)
  {
    hide Sort, Listed, ListedAs;
    CatalogueIsSorted(entries);
    ListedWhich(entries, f);
    assert f in Catalogue(entries) <==> f in multiset(Catalogue(entries));
    assert f in Listed(entries) <==> f in multiset(Listed(entries));
  }
}
