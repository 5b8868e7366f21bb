/**
The debug log: entries kept in one file per day, and queries that skip files by date before they filter, sort and page.
Instants are nanoseconds since 1 January of year 1 in UTC.
*/
module LogQuery {
  import opened Common
  import Calendar
  import Text

  const DAY: int := 86400 * 1000000000

  /** An instant and the offset from UTC at which its date is written. */
  datatype Stamp = Stamp(instant: int, offset: int)

  datatype Entry = Entry(level: string, ts: Stamp, msg: string, httpMethod: string, path: string, status: int,
                         requestId: string, source: string, rest: seq<string>)

  datatype Filter = Filter(startTime: Option<int>, endTime: Option<int>, level: string, path: string,
                           status: Option<int>, requestId: string, httpMethod: string, query: string, source: string,
                           page: int, pageSize: int, sort: string)

  /** Case folding of text, as arbitrary functions. */
  datatype Folding = Folding(equal: (string, string) -> bool, lower: string -> string)

  predicate MatchFilter(e: Entry, f: Filter, fold: Folding) {
    && !(f.startTime.Some? && e.ts.instant < f.startTime.value)
    && !(f.endTime.Some? && e.ts.instant > f.endTime.value)
    && !(f.level != "" && !fold.equal(e.level, f.level))
    && !(f.path != "" && !Text.StartsWith(e.path, f.path))
    && !(f.status.Some? && e.status != f.status.value)
    && !(f.requestId != "" && e.requestId != f.requestId)
    && !(f.httpMethod != "" && !fold.equal(e.httpMethod, f.httpMethod))
    && !(f.query != "" && !Text.Contains(fold.lower(e.msg), fold.lower(f.query)))
    && !(f.source != "" && e.source != f.source)
  }

  // ---------------------------------------------------------------------------------------------
  // Files

  /** What the decoder finds in a file: an entry, a value of the wrong type, or text that is no JSON. */
  datatype Item = Line(entry: Entry) | Mistyped | Broken

  /** A file named after a day, or after something else. */
  datatype Name = Day(day: int) | Other(text: string)

  datatype LogFile = LogFile(name: Name, items: seq<Item>)

  /** The date on which an entry is filed. */
  function DayOf(ts: Stamp): int {
    (ts.instant + ts.offset) / DAY
  }

  /** Four-digit years; outside of them a time is neither written as JSON nor read back from a file name. */
  predicate InCalendar(day: int) {
    Calendar.DaysBeforeYear(0) <= day < Calendar.DaysBeforeYear(10000)
  }

  predicate Dated(name: Name) {
    name.Day? && InCalendar(name.day)
  }

  function Entries(items: seq<Item>): seq<Entry> {
    if items == [] then []
    else Entries(items[..|items| - 1]) + match items[|items| - 1] { case Line(e) => [e] case _ => [] }
  }

  /** The file is read for this filter: with a time window set, only dated files that it touches. */
  predicate Kept(file: LogFile, f: Filter) {
    (f.startTime == None && f.endTime == None) || (
      && Dated(file.name)
      && !(f.startTime.Some? && (file.name.day + 1) * DAY < f.startTime.value)
      && !(f.endTime.Some? && file.name.day * DAY > f.endTime.value))
  }

  function Resolved(files: seq<LogFile>, f: Filter): seq<LogFile> {
    if files == [] then []
    else Resolved(files[..|files| - 1], f) + if Kept(files[|files| - 1], f) then [files[|files| - 1]] else []
  }

  function AllEntries(files: seq<LogFile>): seq<Entry> {
    if files == [] then [] else AllEntries(files[..|files| - 1]) + Entries(files[|files| - 1].items)
  }

  function Matching(es: seq<Entry>, f: Filter, fold: Folding): seq<Entry> {
    if es == [] then []
    else Matching(es[..|es| - 1], f, fold) + if MatchFilter(es[|es| - 1], f, fold) then [es[|es| - 1]] else []
  }

  /** The entry meets every criterion that is set; a criterion that is not set asks nothing. */
  ghost predicate AllMet(e: Entry, f: Filter, fold: Folding) {
    && (f.startTime.Some? ==> f.startTime.value <= e.ts.instant)
    && (f.endTime.Some? ==> e.ts.instant <= f.endTime.value)
    && (f.level == "" || fold.equal(e.level, f.level))
    && (f.path == "" || (|f.path| <= |e.path| && e.path[..|f.path|] == f.path))
    && (f.status.Some? ==> e.status == f.status.value)
    && (f.requestId == "" || e.requestId == f.requestId)
    && (f.httpMethod == "" || fold.equal(e.httpMethod, f.httpMethod))
    && (f.query == "" || exists i :: Text.At(fold.lower(e.msg), fold.lower(f.query), i))
    && (f.source == "" || e.source == f.source)
  }

  /** The filter's tests let exactly the entries through that meet every criterion. */
  lemma MatchesIffAllMet(e: Entry, f: Filter, fold: Folding)
    ensures MatchFilter(e, f, fold) <==> AllMet(e, f, fold)
  {
    Text.IndexIsFirst(fold.lower(e.msg), fold.lower(f.query));
  }

  // ---------------------------------------------------------------------------------------------
  // Skipping files against reading them all

  lemma {:induction false} MatchingConcat(a: seq<Entry>, b: seq<Entry>, f: Filter, fold: Folding)
    ensures Matching(a + b, f, fold) == Matching(a, f, fold) + Matching(b, f, fold)
  {
    if b == [] {
      assert a + b == a;
    } else {
      MatchingConcat(a, b[..|b| - 1], f, fold);
      assert (a + b)[..|a + b| - 1] == a + b[..|b| - 1];
    }
  }

  lemma {:induction false} MatchingMembers(es: seq<Entry>, f: Filter, fold: Folding)
    ensures forall e :: e in Matching(es, f, fold) <==> e in es && MatchFilter(e, f, fold)
  {
    if es != [] {
      MatchingMembers(es[..|es| - 1], f, fold);
      assert es == es[..|es| - 1] + [es[|es| - 1]];
    }
  }

  /** The entry's file is read by every filter that the entry matches. */
  predicate FiledInReach(name: Name, e: Entry) {
    Dated(name) && name.day * DAY <= e.ts.instant <= (name.day + 1) * DAY
  }

  ghost predicate AllFiledInReach(files: seq<LogFile>) {
    forall i :: 0 <= i < |files| ==> forall e :: e in Entries(files[i].items) ==> FiledInReach(files[i].name, e)
  }

  lemma FirstIsMember(es: seq<Entry>)
    ensures es == [] || es[0] in es
  {}

  lemma SkippedFileHasNoMatch(file: LogFile, f: Filter, fold: Folding)
    requires !Kept(file, f) && forall e :: e in Entries(file.items) ==> FiledInReach(file.name, e)
    ensures Matching(Entries(file.items), f, fold) == []
  {
    MatchingMembers(Entries(file.items), f, fold);
    var found := Matching(Entries(file.items), f, fold);
    forall e | e in Entries(file.items) ensures !MatchFilter(e, f, fold) {
      assert FiledInReach(file.name, e);
    }
    FirstIsMember(found);
  }

  /** A file that the query skips holds an entry that matches it. */
  ghost predicate Misses(files: seq<LogFile>, f: Filter, fold: Folding) {
    exists i, e :: 0 <= i < |files| && !Kept(files[i], f) && e in Entries(files[i].items) && MatchFilter(e, f, fold)
  }

  lemma {:induction false} NothingMissed(files: seq<LogFile>, f: Filter, fold: Folding)
    requires !Misses(files, f, fold)
    ensures Matching(AllEntries(Resolved(files, f)), f, fold) == Matching(AllEntries(files), f, fold)
  {
    hide MatchFilter, Kept, Misses, Entries;
    if files != [] {
      var n := |files| - 1;
      var front, last := files[..n], files[n];
      MissesLast(files, f, fold);
      NothingMissed(front, f, fold);
      MatchingConcat(AllEntries(front), Entries(last.items), f, fold);
      ResolvedLast(files, f);
      if Kept(last, f) {
        MatchingConcat(AllEntries(Resolved(front, f)), Entries(last.items), f, fold);
        assert (Resolved(front, f) + [last])[..|Resolved(front, f)|] == Resolved(front, f);
      }
    }
  }

  lemma ResolvedLast(files: seq<LogFile>, f: Filter)
    requires files != []
    ensures var n := |files| - 1;
            Resolved(files, f) == if Kept(files[n], f) then Resolved(files[..n], f) + [files[n]] else Resolved(files[..n], f)
  {
    hide Kept;
  }

  lemma MissesLast(files: seq<LogFile>, f: Filter, fold: Folding)
    requires files != [] && !Misses(files, f, fold)
    ensures var n := |files| - 1;
            && !Misses(files[..n], f, fold)
            && (!Kept(files[n], f) ==> Matching(Entries(files[n].items), f, fold) == [])
  {
    hide MatchFilter, Kept, Entries;
    var n := |files| - 1;
    assert forall i :: 0 <= i < n ==> files[..n][i] == files[i];
    MatchingMembers(Entries(files[n].items), f, fold);
    FirstIsMember(Matching(Entries(files[n].items), f, fold));
  }

  /** Nothing is missed by a query without a time window, nor by any query on files whose entries lie in reach. */
  lemma NothingMissedWhen(files: seq<LogFile>, f: Filter, fold: Folding)
    requires (f.startTime == None && f.endTime == None) || AllFiledInReach(files)
    ensures !Misses(files, f, fold)
  {
    forall i, e | 0 <= i < |files| && !Kept(files[i], f) && e in Entries(files[i].items) ensures !MatchFilter(e, f, fold) {
      SkippedFileHasNoMatch(files[i], f, fold);
      MatchingMembers(Entries(files[i].items), f, fold);
    }
  }

  lemma SkippingKeepsMatches(files: seq<LogFile>, f: Filter, fold: Folding)
    requires AllFiledInReach(files)
    ensures Matching(AllEntries(Resolved(files, f)), f, fold) == Matching(AllEntries(files), f, fold)
  {
    NothingMissedWhen(files, f, fold);
    NothingMissed(files, f, fold);
  }

  /** Skipping never adds matches, and it loses one whenever a skipped file holds one. */
  lemma {:induction false} SkippingLoses(files: seq<LogFile>, f: Filter, fold: Folding, i: nat, e: Entry)
    requires i < |files| ==> !Kept(files[i], f) && e in Entries(files[i].items) && MatchFilter(e, f, fold)
    ensures |Matching(AllEntries(Resolved(files, f)), f, fold)| <= |Matching(AllEntries(files), f, fold)|
    ensures i < |files| ==> |Matching(AllEntries(Resolved(files, f)), f, fold)| < |Matching(AllEntries(files), f, fold)|
  {
    hide MatchFilter, Kept, FiledInReach;
    if files != [] {
      var n := |files| - 1;
      var front, last := files[..n], files[n];
      SkippingLoses(front, f, fold, i, e);
      MatchingConcat(AllEntries(front), Entries(last.items), f, fold);
      if Kept(last, f) {
        assert Resolved(files, f)[..|Resolved(files, f)| - 1] == Resolved(front, f);
        MatchingConcat(AllEntries(Resolved(front, f)), Entries(last.items), f, fold);
      } else {
        assert Resolved(files, f) == Resolved(front, f);
      }
      if i == n {
        MatchingMembers(Entries(last.items), f, fold);
        assert e in Matching(Entries(last.items), f, fold);
      }
    }
  }

  /** Skipping files by date never changes what any query matches exactly when every entry lies within the UTC day that
      its file is named after, and no entry lies in a file that is not named after a day. */
  lemma SkippingIsSoundIff(files: seq<LogFile>, fold: Folding)
    ensures (forall f: Filter :: Matching(AllEntries(Resolved(files, f)), f, fold) == Matching(AllEntries(files), f, fold))
       <==> AllFiledInReach(files)
  {
    if AllFiledInReach(files) {
      forall f: Filter
        ensures Matching(AllEntries(Resolved(files, f)), f, fold) == Matching(AllEntries(files), f, fold)
      {
        SkippingKeepsMatches(files, f, fold);
      }
    } else {
      var i :| 0 <= i < |files| && !forall e :: e in Entries(files[i].items) ==> FiledInReach(files[i].name, e);
      var e :| e in Entries(files[i].items) && !FiledInReach(files[i].name, e);
      var window := Filter(Some(e.ts.instant), Some(e.ts.instant), "", "", None, "", "", "", "", 1, 50, "");
      SkippingLoses(files, window, fold, i, e);
      assert Matching(AllEntries(Resolved(files, window)), window, fold) != Matching(AllEntries(files), window, fold);
    }
  }

  // ---------------------------------------------------------------------------------------------
  // Reading one file

  /** The decoder's position and the entries kept after n calls. It passes over values of the wrong type, and stays
      where the text is no JSON. */
  function Decoding(items: seq<Item>, n: nat): (r: (nat, seq<Entry>))
    ensures r.0 <= |items|
  {
    if n == 0 then (0, [])
    else
      var (pos, kept) := Decoding(items, n - 1);
      if pos == |items| || items[pos].Broken? then (pos, kept)
      else (pos + 1, if items[pos].Line? then kept + [items[pos].entry] else kept)
  }

  /** No malformed text. */
  predicate WellFormed(items: seq<Item>) {
    forall k :: 0 <= k < |items| ==> !items[k].Broken?
  }

  lemma {:induction false} DecodingProgress(items: seq<Item>, n: nat)
    ensures Decoding(items, n).0 <= n
    ensures forall k :: 0 <= k < Decoding(items, n).0 ==> !items[k].Broken?
    ensures Decoding(items, n).1 == Entries(items[..Decoding(items, n).0])
    ensures n <= |items| && (forall k :: 0 <= k < n ==> !items[k].Broken?) ==> Decoding(items, n).0 == n
  {
    if n > 0 {
      DecodingProgress(items, n - 1);
      var pos := Decoding(items, n - 1).0;
      if pos < |items| { assert items[..pos + 1][..pos] == items[..pos]; }
    }
  }

  /** Reading a file comes to its end exactly when the file holds no malformed text, and then keeps its entries. */
  lemma ReadingEndsIff(items: seq<Item>)
    ensures (exists n: nat :: Decoding(items, n).0 == |items|) <==> WellFormed(items)
    ensures forall n: nat :: Decoding(items, n).0 == |items| ==> Decoding(items, n).1 == Entries(items)
  {
    forall n: nat | Decoding(items, n).0 == |items|
      ensures Decoding(items, n).1 == Entries(items) && forall k :: 0 <= k < |items| ==> !items[k].Broken?
    {
      DecodingProgress(items, n);
      assert items[..|items|] == items;
    }
    if forall k :: 0 <= k < |items| ==> !items[k].Broken? {
      DecodingProgress(items, |items|);
    }
  }

  // ---------------------------------------------------------------------------------------------
  // Pages

  function PageOf(sorted: seq<Entry>, page: int, pageSize: int): seq<Entry> {
    var p := if page < 1 then 1 else page;
    var size := if pageSize < 1 then 50 else pageSize;
    StartBound(p, size);
    var start := (p - 1) * size;
    if start >= |sorted| then []
    else sorted[start..if start + size > |sorted| then |sorted| else start + size]
  }

  lemma StartBound(page: int, size: int)
    requires page >= 1 && size >= 1
    ensures (page - 1) * size >= 0
  {}

  function FirstPages(sorted: seq<Entry>, count: nat, pageSize: int): seq<Entry> {
    if count == 0 then [] else FirstPages(sorted, count - 1, pageSize) + PageOf(sorted, count, pageSize)
  }

  lemma {:induction false} FirstPagesArePrefix(sorted: seq<Entry>, count: nat, pageSize: int)
    requires pageSize >= 1
    ensures count * pageSize >= 0
    ensures FirstPages(sorted, count, pageSize) == sorted[..if count * pageSize < |sorted| then count * pageSize else |sorted|]
  {
    if count > 0 {
      FirstPagesArePrefix(sorted, count - 1, pageSize);
      assert count * pageSize == (count - 1) * pageSize + pageSize;
    }
  }

  predicate Ordered(es: seq<Entry>, descending: bool) {
    forall i, j :: 0 <= i < j < |es| ==> Before(es[i], es[j], descending)
  }

  /** The contract of the library's sort: an ordered permutation, with ties in any order. */
  type Sorter = (seq<Entry>, bool) -> seq<Entry>

  ghost predicate Sorts(sorter: Sorter) {
    forall es, descending :: multiset(sorter(es, descending)) == multiset(es) && Ordered(sorter(es, descending), descending)
  }

  predicate Before(a: Entry, b: Entry, descending: bool) {
    if descending then a.ts.instant >= b.ts.instant else a.ts.instant <= b.ts.instant
  }

  function Position(e: Entry, es: seq<Entry>, descending: bool): (k: nat)
    requires Ordered(es, descending)
    ensures k <= |es|
    ensures forall i :: 0 <= i < k ==> Before(es[i], e, descending)
    ensures forall i :: k <= i < |es| ==> Before(e, es[i], descending)
  {
    if es == [] then 0
    else
      var n := |es| - 1;
      assert forall i :: 0 <= i < n ==> es[..n][i] == es[i];
      if Before(es[n], e, descending) then
        assert forall i :: 0 <= i < n ==> Before(es[i], es[n], descending);
        n + 1
      else Position(e, es[..n], descending)
  }

  lemma InsertedIsOrdered(e: Entry, es: seq<Entry>, k: nat, descending: bool)
    requires Ordered(es, descending) && k <= |es|
    requires forall i :: 0 <= i < k ==> Before(es[i], e, descending)
    requires forall i :: k <= i < |es| ==> Before(e, es[i], descending)
    ensures Ordered(es[..k] + [e] + es[k..], descending)
  {
    var r := es[..k] + [e] + es[k..];
    forall i, j | 0 <= i < j < |r| ensures Before(r[i], r[j], descending) {
      assert r[i] == (if i < k then es[i] else if i == k then e else es[i - 1]);
      assert r[j] == (if j < k then es[j] else if j == k then e else es[j - 1]);
    }
  }

  lemma InsertedIsPermutation(e: Entry, es: seq<Entry>, k: nat)
    requires k <= |es|
    ensures multiset(es[..k] + [e] + es[k..]) == multiset([e] + es)
  {
    assert es == es[..k] + es[k..];
  }

  function SortByTime(es: seq<Entry>, descending: bool): (r: seq<Entry>)
    ensures Ordered(r, descending) && multiset(r) == multiset(es)
  {
    if es == [] then []
    else
      var rest := SortByTime(es[1..], descending);
      var k := Position(es[0], rest, descending);
      InsertedIsOrdered(es[0], rest, k, descending);
      InsertedIsPermutation(es[0], rest, k);
      hide Ordered, Position;
      assert es == [es[0]] + es[1..];
      rest[..k] + [es[0]] + rest[k..]
  }

  /** Everything but paging: what the pages of a query are cut from. */
  function Answer(files: seq<LogFile>, f: Filter, fold: Folding, sorter: Sorter): seq<Entry> {
    sorter(Matching(AllEntries(Resolved(files, f)), f, fold), f.sort == "" || f.sort == "desc")
  }

  // ---------------------------------------------------------------------------------------------
  // The repository

  /** The log directory: what each file holds. */
  type Directory = map<Name, seq<Item>>

  /** The files of a directory, each once, in some order. */
  ghost predicate IsListing(dir: Directory, files: seq<LogFile>) {
    && (forall i :: 0 <= i < |files| ==> files[i].name in dir && files[i].items == dir[files[i].name])
    && (forall i, j :: 0 <= i < j < |files| ==> files[i].name != files[j].name)
    && (forall name :: name in dir ==> exists i :: 0 <= i < |files| && files[i].name == name)
  }

  /** The library's listing of a directory, a fixed order of its files. */
  type Lister = Directory -> seq<LogFile>

  ghost predicate Lists(lister: Lister) {
    forall dir :: IsListing(dir, lister(dir))
  }

  lemma ListingMore(dir: Directory, name: Name, rest: seq<LogFile>)
    requires name in dir && IsListing(dir - {name}, rest)
    ensures IsListing(dir, [LogFile(name, dir[name])] + rest)
  {
    var files := [LogFile(name, dir[name])] + rest;
    assert files[0].name == name;
    assert forall i :: 0 < i < |files| ==> files[i] == rest[i - 1];
    forall other | other in dir ensures exists i :: 0 <= i < |files| && files[i].name == other {
      if other != name {
        assert other in dir - {name};
        var i :| 0 <= i < |rest| && rest[i].name == other;
        assert files[i + 1] == rest[i];
      }
    }
  }

  lemma {:induction false} ListingExists(dir: Directory)
    ensures exists files :: IsListing(dir, files)
    decreases |dir.Keys|
  {
    if dir.Keys == {} {
      assert IsListing(dir, []);
    } else {
      var name :| name in dir.Keys;
      assert (dir - {name}).Keys == dir.Keys - {name};
      ListingExists(dir - {name});
      var rest :| IsListing(dir - {name}, rest);
      ListingMore(dir, name, rest);
    }
  }

  ghost function Enumerated(dir: Directory): (files: seq<LogFile>)
    ensures IsListing(dir, files)
  {
    ListingExists(dir);
    var files :| IsListing(dir, files);
    files
  }

  /** What is assumed of the library's sort and of its listing of a directory can be met. */
  lemma LibraryContractsCanBeMet()
    ensures Sorts(SortByTime) && exists lister: Lister :: Lists(lister)
  {
    ghost var lister: Lister := dir => Enumerated(dir);
    assert Lists(lister);
  }

  // ---------------------------------------------------------------------------------------------
  // The pages of a query

  /** The page that a query answers with; `Query` is proved to return it. */
  function QueryPage(dir: Directory, f: Filter, fold: Folding, sorter: Sorter, lister: Lister): seq<Entry> {
    PageOf(Answer(lister(dir), f, fold, sorter), f.page, f.pageSize)
  }

  function QueryTotal(dir: Directory, f: Filter, fold: Folding, sorter: Sorter, lister: Lister): nat {
    |Answer(lister(dir), f, fold, sorter)|
  }

  /** Pages 1, 2, 3 and so on of a query, put together. */
  function QueryPages(dir: Directory, f: Filter, fold: Folding, sorter: Sorter, lister: Lister, count: nat): seq<Entry> {
    if count == 0 then []
    else QueryPages(dir, f, fold, sorter, lister, count - 1) + QueryPage(dir, f.(page := count), fold, sorter, lister)
  }

  lemma {:induction false} SameWindowSameFiles(files: seq<LogFile>, f: Filter, g: Filter)
    requires g.startTime == f.startTime && g.endTime == f.endTime
    ensures Resolved(files, g) == Resolved(files, f)
  {
    if files != [] {
      SameWindowSameFiles(files[..|files| - 1], f, g);
      assert Kept(files[|files| - 1], g) == Kept(files[|files| - 1], f);
    }
  }

  lemma {:induction false} MatchingIgnoresPage(es: seq<Entry>, f: Filter, fold: Folding, page: int)
    ensures Matching(es, f.(page := page), fold) == Matching(es, f, fold)
  {
    if es != [] {
      MatchingIgnoresPage(es[..|es| - 1], f, fold, page);
      assert MatchFilter(es[|es| - 1], f.(page := page), fold) == MatchFilter(es[|es| - 1], f, fold);
    }
  }

  /** Every page of a query reports the same total, and is cut from the same entries in the same order. */
  lemma TotalIgnoresPage(dir: Directory, f: Filter, fold: Folding, sorter: Sorter, lister: Lister, page: int)
    ensures Answer(lister(dir), f.(page := page), fold, sorter) == Answer(lister(dir), f, fold, sorter)
    ensures QueryTotal(dir, f.(page := page), fold, sorter, lister) == QueryTotal(dir, f, fold, sorter, lister)
  {
    SameWindowSameFiles(lister(dir), f, f.(page := page));
    MatchingIgnoresPage(AllEntries(Resolved(lister(dir), f)), f, fold, page);
  }

  lemma {:induction false} QueryPagesAre(dir: Directory, f: Filter, fold: Folding, sorter: Sorter, lister: Lister, count: nat)
    ensures QueryPages(dir, f, fold, sorter, lister, count) == FirstPages(Answer(lister(dir), f, fold, sorter), count, f.pageSize)
  {
    hide PageOf, Answer;
    if count > 0 {
      QueryPagesAre(dir, f, fold, sorter, lister, count - 1);
      TotalIgnoresPage(dir, f, fold, sorter, lister, count);
    }
  }

  /** The pages of a query, put together, are the matching entries of the files it reads, each as often as it was logged,
      in order of time; and they are all that a full scan matches exactly when no skipped file holds a match. */
  lemma PagesCoverTheLog(dir: Directory, f: Filter, fold: Folding, sorter: Sorter, lister: Lister, count: nat)
    requires Sorts(sorter) && f.pageSize >= 1
    requires count * f.pageSize >= QueryTotal(dir, f, fold, sorter, lister)
    ensures var pages, files := QueryPages(dir, f, fold, sorter, lister, count), lister(dir);
            && multiset(pages) == multiset(Matching(AllEntries(Resolved(files, f)), f, fold))
            && (forall i, j :: 0 <= i < j < |pages| ==>
                  if f.sort == "" || f.sort == "desc" then pages[i].ts.instant >= pages[j].ts.instant
                  else pages[i].ts.instant <= pages[j].ts.instant)
            && |pages| == QueryTotal(dir, f, fold, sorter, lister)
            && (multiset(pages) == multiset(Matching(AllEntries(files), f, fold)) <==> !Misses(files, f, fold))
  {
    var files := lister(dir);
    var answer := Answer(files, f, fold, sorter);
    QueryPagesAre(dir, f, fold, sorter, lister, count);
    FirstPagesArePrefix(answer, count, f.pageSize);
    assert answer[..|answer|] == answer;
    if Misses(files, f, fold) {
      var i, e :| 0 <= i < |files| && !Kept(files[i], f) && e in Entries(files[i].items) && MatchFilter(e, f, fold);
      SkippingLoses(files, f, fold, i, e);
      LongerDiffers(Matching(AllEntries(Resolved(files, f)), f, fold), Matching(AllEntries(files), f, fold));
    } else {
      NothingMissed(files, f, fold);
    }
  }

  lemma LongerDiffers(a: seq<Entry>, b: seq<Entry>)
    requires |a| < |b|
    ensures multiset(a) != multiset(b)
  {
    assert |multiset(a)| == |a| && |multiset(b)| == |b|;
  }

  // ---------------------------------------------------------------------------------------------
  // What the pages hold

  /** How often the entry stands in the files. */
  function Logged(files: seq<LogFile>, e: Entry): nat {
    if files == [] then 0 else Logged(files[..|files| - 1], e) + multiset(files[|files| - 1].items)[Line(e)]
  }

  lemma {:induction false} EntriesCount(items: seq<Item>, e: Entry)
    ensures multiset(Entries(items))[e] == multiset(items)[Line(e)]
  {
    if items != [] {
      var n := |items| - 1;
      EntriesCount(items[..n], e);
      assert items == items[..n] + [items[n]];
    }
  }

  lemma {:induction false} AllEntriesCount(files: seq<LogFile>, e: Entry)
    ensures multiset(AllEntries(files))[e] == Logged(files, e)
  {
    hide Entries;
    if files != [] {
      var n := |files| - 1;
      AllEntriesCount(files[..n], e);
      EntriesCount(files[n].items, e);
    }
  }

  lemma {:induction false} MatchingCount(es: seq<Entry>, f: Filter, fold: Folding, e: Entry)
    ensures multiset(Matching(es, f, fold))[e] == if MatchFilter(e, f, fold) then multiset(es)[e] else 0
  {
    hide MatchFilter;
    if es != [] {
      var n := |es| - 1;
      MatchingCount(es[..n], f, fold, e);
      assert es == es[..n] + [es[n]];
    }
  }

  lemma PageMatches(dir: Directory, f: Filter, fold: Folding, sorter: Sorter, lister: Lister)
    requires Sorts(sorter)
    ensures forall e :: e in QueryPage(dir, f, fold, sorter, lister) ==> MatchFilter(e, f, fold)
  {
    hide MatchFilter, Resolved, AllEntries;
    var answer := Answer(lister(dir), f, fold, sorter);
    var matching := Matching(AllEntries(Resolved(lister(dir), f)), f, fold);
    MatchingMembers(AllEntries(Resolved(lister(dir), f)), f, fold);
    assert multiset(answer) == multiset(matching);
    forall e | e in QueryPage(dir, f, fold, sorter, lister) ensures MatchFilter(e, f, fold) {
      assert e in answer;
      assert e in multiset(answer) && e in multiset(matching);
    }
  }

  /** The pages of a query hold an entry that meets all criteria as often as the files read have it logged, and no other
      entry. */
  lemma PagesHold(dir: Directory, f: Filter, fold: Folding, sorter: Sorter, lister: Lister, count: nat, e: Entry)
    requires Sorts(sorter) && f.pageSize >= 1
    requires count * f.pageSize >= QueryTotal(dir, f, fold, sorter, lister)
    ensures multiset(QueryPages(dir, f, fold, sorter, lister, count))[e]
         == if AllMet(e, f, fold) then Logged(Resolved(lister(dir), f), e) else 0
  {
    PagesCoverTheLog(dir, f, fold, sorter, lister, count);
    MatchesIffAllMet(e, f, fold);
    hide AllMet, MatchFilter, Resolved, AllEntries, Matching, QueryPages, QueryTotal;
    MatchingCount(AllEntries(Resolved(lister(dir), f)), f, fold, e);
    AllEntriesCount(Resolved(lister(dir), f), e);
  }

  /** The filter with one criterion more, and what that criterion asks of an entry. */
  datatype Criterion =
    | Level(level: string) | Path(path: string) | Status(status: int) | RequestId(id: string) | HttpMethod(name: string)
    | Message(query: string) | Source(source: string)

  function With(f: Filter, c: Criterion): Filter {
    match c
    case Level(level) => f.(level := level)
    case Path(path) => f.(path := path)
    case Status(status) => f.(status := Some(status))
    case RequestId(id) => f.(requestId := id)
    case HttpMethod(name) => f.(httpMethod := name)
    case Message(query) => f.(query := query)
    case Source(source) => f.(source := source)
  }

  predicate Unset(f: Filter, c: Criterion) {
    match c
    case Level(_) => f.level == ""
    case Path(_) => f.path == ""
    case Status(_) => f.status == None
    case RequestId(_) => f.requestId == ""
    case HttpMethod(_) => f.httpMethod == ""
    case Message(_) => f.query == ""
    case Source(_) => f.source == ""
  }

  ghost predicate Meets(e: Entry, c: Criterion, fold: Folding) {
    match c
    case Level(level) => level == "" || fold.equal(e.level, level)
    case Path(path) => |path| <= |e.path| && e.path[..|path|] == path
    case Status(status) => e.status == status
    case RequestId(id) => id == "" || e.requestId == id
    case HttpMethod(name) => name == "" || fold.equal(e.httpMethod, name)
    case Message(query) => query == "" || exists i :: Text.At(fold.lower(e.msg), fold.lower(query), i)
    case Source(source) => source == "" || e.source == source
  }

  lemma WithMatchesIff(e: Entry, f: Filter, c: Criterion, fold: Folding)
    requires Unset(f, c)
    ensures AllMet(e, With(f, c), fold) <==> AllMet(e, f, fold) && Meets(e, c, fold)
  {}

  /** Setting one criterion more keeps exactly the entries that meet it, each as often as before. */
  lemma OneCriterionMore(dir: Directory, f: Filter, c: Criterion, fold: Folding, sorter: Sorter, lister: Lister,
                         count: nat, more: nat, e: Entry)
    requires Sorts(sorter) && f.pageSize >= 1 && Unset(f, c)
    requires count * f.pageSize >= QueryTotal(dir, f, fold, sorter, lister)
    requires more * f.pageSize >= QueryTotal(dir, With(f, c), fold, sorter, lister)
    ensures multiset(QueryPages(dir, With(f, c), fold, sorter, lister, more))[e]
         == if Meets(e, c, fold) then multiset(QueryPages(dir, f, fold, sorter, lister, count))[e] else 0
  {
    hide AllMet, Meets, QueryPages, QueryTotal, Resolved;
    WithMatchesIff(e, f, c, fold);
    SameWindowSameFiles(lister(dir), f, With(f, c));
    PagesHold(dir, f, fold, sorter, lister, count, e);
    PagesHold(dir, With(f, c), fold, sorter, lister, more, e);
  }

  predicate InWindow(t: int, startTime: Option<int>, endTime: Option<int>) {
    (startTime.Some? ==> startTime.value <= t) && (endTime.Some? ==> t <= endTime.value)
  }

  /** Where skipping is sound, setting a time window keeps exactly the entries within it. */
  lemma WindowKeepsWithin(dir: Directory, f: Filter, startTime: Option<int>, endTime: Option<int>, fold: Folding,
                          sorter: Sorter, lister: Lister, count: nat, more: nat, e: Entry)
    requires Sorts(sorter) && f.pageSize >= 1 && f.startTime == None && f.endTime == None && AllFiledInReach(lister(dir))
    requires count * f.pageSize >= QueryTotal(dir, f, fold, sorter, lister)
    requires more * f.pageSize >= QueryTotal(dir, f.(startTime := startTime, endTime := endTime), fold, sorter, lister)
    ensures multiset(QueryPages(dir, f.(startTime := startTime, endTime := endTime), fold, sorter, lister, more))[e]
         == if InWindow(e.ts.instant, startTime, endTime) then multiset(QueryPages(dir, f, fold, sorter, lister, count))[e] else 0
  {
    var g := f.(startTime := startTime, endTime := endTime);
    MatchesIffAllMet(e, f, fold);
    MatchesIffAllMet(e, g, fold);
    hide MatchFilter, QueryPages, QueryTotal, Resolved, AllFiledInReach, Matching, AllEntries;
    PagesCoverTheLog(dir, f, fold, sorter, lister, count);
    PagesCoverTheLog(dir, g, fold, sorter, lister, more);
    SkippingKeepsMatches(lister(dir), f, fold);
    SkippingKeepsMatches(lister(dir), g, fold);
    MatchingCount(AllEntries(lister(dir)), f, fold, e);
    MatchingCount(AllEntries(lister(dir)), g, fold, e);
  }

  /** With a window that holds any instant, a file is read exactly when its name is a day that shares an instant with the
      window, counting the midnight that ends it. */
  lemma KeptIffTouched(file: LogFile, f: Filter)
    requires f.startTime.Some? || f.endTime.Some?
    requires f.startTime.Some? && f.endTime.Some? ==> f.startTime.value <= f.endTime.value
    ensures Kept(file, f) <==>
              && file.name.Day? && InCalendar(file.name.day)
              && exists t :: file.name.day * DAY <= t <= (file.name.day + 1) * DAY && InWindow(t, f.startTime, f.endTime)
  {
    hide InCalendar;
    if file.name.Day? {
      var start, end := file.name.day * DAY, (file.name.day + 1) * DAY;
      var t := if f.startTime.Some? && start < f.startTime.value then f.startTime.value else start;
      assert start < end;
      if Kept(file, f) { assert start <= t <= end && InWindow(t, f.startTime, f.endTime); }
    }
  }

  /** Page numbers below 1 mean page 1, and page sizes below 1 mean 50. */
  lemma PageDefaults(sorted: seq<Entry>, page: int, pageSize: int)
    ensures page < 1 ==> PageOf(sorted, page, pageSize) == PageOf(sorted, 1, pageSize)
    ensures pageSize < 1 ==> PageOf(sorted, page, pageSize) == PageOf(sorted, page, 50)
  {}

  ghost predicate AnyBroken(files: seq<LogFile>) {
    exists i :: 0 <= i < |files| && !WellFormed(files[i].items)
  }

  /** The filter makes a query read a file with malformed text. */
  predicate ReadsBroken(dir: Directory, name: Name, f: Filter) {
    name in dir && Kept(LogFile(name, dir[name]), f) && !WellFormed(dir[name])
  }

  // ---------------------------------------------------------------------------------------------
  // Seeding

  function Contents(dir: Directory, name: Name): seq<Item> {
    if name in dir then dir[name] else []
  }

  /** The lines that seeding writes for one day. */
  function LinesOn(es: seq<Entry>, day: int): seq<Item> {
    if es == [] then []
    else
      var last := es[|es| - 1];
      LinesOn(es[..|es| - 1], day) + if DayOf(last.ts) == day then [Line(last)] else []
  }

  /** The lines keep the order of the entries. */
  lemma {:induction false} LinesOnConcat(a: seq<Entry>, b: seq<Entry>, day: int)
    ensures LinesOn(a + b, day) == LinesOn(a, day) + LinesOn(b, day)
    ensures b != [] && DayOf(b[0].ts) == day ==> |LinesOn(b[..1], day)| == 1 && LinesOn(b[..1], day)[0] == Line(b[0])
  {
    hide DayOf;
    if b == [] {
      assert a + b == a;
    } else {
      LinesOnConcat(a, b[..|b| - 1], day);
      assert (a + b)[..|a + b| - 1] == a + b[..|b| - 1];
      assert b[..1][..0] == [];
    }
  }

  lemma {:induction false} LinesOnEmptyIff(es: seq<Entry>, day: int)
    ensures LinesOn(es, day) == [] <==> forall i :: 0 <= i < |es| ==> DayOf(es[i].ts) != day
  {
    hide DayOf;
    if es != [] {
      var n := |es| - 1;
      LinesOnEmptyIff(es[..n], day);
      assert forall i :: 0 <= i < n ==> es[..n][i] == es[i];
    }
  }

  /** Nothing but well-formed entries of the day. */
  predicate OfDay(items: seq<Item>, day: int) {
    forall k :: 0 <= k < |items| ==> LineOf(items[k], day)
  }

  predicate LineOf(item: Item, day: int) {
    item.Line? && DayOf(item.entry.ts) == day && InCalendar(day)
  }

  /** A directory that only seeding has written: each file holds well-formed entries of its own day. */
  ghost predicate SeededOnly(dir: Directory) {
    forall name :: name in dir ==> name.Day? && OfDay(dir[name], name.day)
  }

  lemma {:induction false} EntriesAreLines(items: seq<Item>)
    ensures forall e :: e in Entries(items) ==> exists k :: 0 <= k < |items| && items[k] == Line(e)
  {
    if items != [] {
      var n := |items| - 1;
      EntriesAreLines(items[..n]);
      forall e | e in Entries(items) ensures exists k :: 0 <= k < |items| && items[k] == Line(e) {
        if e in Entries(items[..n]) {
          var k :| 0 <= k < n && items[..n][k] == Line(e);
          assert items[k] == Line(e);
        }
      }
    }
  }

  /** The date an entry is filed under is its date in UTC, or its instant is the midnight that ends the filed day. */
  predicate UtcDated(ts: Stamp) {
    DayOf(ts) == ts.instant / DAY || ts.instant == (DayOf(ts) + 1) * DAY
  }

  lemma DayBounds(instant: int, day: int)
    ensures day * DAY <= instant <= (day + 1) * DAY <==> day == instant / DAY || instant == (day + 1) * DAY
  {}

  lemma SeededInReachIff(dir: Directory, name: Name, e: Entry)
    requires SeededOnly(dir) && name in dir && e in Entries(dir[name])
    ensures FiledInReach(name, e) <==> UtcDated(e.ts)
  {
    EntriesAreLines(dir[name]);
    var k :| 0 <= k < |dir[name]| && dir[name][k] == Line(e);
    hide InCalendar;
    DayBounds(e.ts.instant, DayOf(e.ts));
  }

  /** In a directory written by seeding, skipping files is sound for every query exactly when every entry was logged on
      its UTC date; entries with UTC stamps always are. */
  lemma SeededSkippingIsSoundIff(dir: Directory, files: seq<LogFile>, fold: Folding)
    requires SeededOnly(dir) && IsListing(dir, files)
    ensures (forall f: Filter :: Matching(AllEntries(Resolved(files, f)), f, fold) == Matching(AllEntries(files), f, fold))
       <==> forall name, e :: name in dir && e in Entries(dir[name]) ==> UtcDated(e.ts)
  {
    SkippingIsSoundIff(files, fold);
    hide FiledInReach, UtcDated, Resolved, Matching, AllEntries, Entries;
    forall name, e | name in dir && e in Entries(dir[name]) ensures FiledInReach(name, e) <==> UtcDated(e.ts) {
      SeededInReachIff(dir, name, e);
    }
    if AllFiledInReach(files) {
      forall name, e | name in dir && e in Entries(dir[name]) ensures UtcDated(e.ts) {
        var i :| 0 <= i < |files| && files[i].name == name;
        assert FiledInReach(files[i].name, e);
      }
    }
  }

  lemma UtcStampsAreUtcDated(ts: Stamp)
    requires ts.offset == 0
    ensures UtcDated(ts)
  {}

  /** East of UTC an entry can be filed a day later than its UTC date, when it was logged late in the day; west of UTC a
      day earlier, when it was logged early. */
  lemma OffsetShiftsTheDay(ts: Stamp)
    requires -DAY < ts.offset < DAY
    ensures var day := 86400 * 1000000000;
            var late := ts.instant % day;
            DayOf(ts) == ts.instant / day + (if late + ts.offset >= day then 1 else if late + ts.offset < 0 then -1 else 0)
  {
    QuotientBetween(ts.instant, ts.offset);
  }

  lemma QuotientBetween(instant: int, offset: int)
    requires -DAY < offset < DAY
    ensures (instant + offset) / DAY == instant / DAY
              + (if instant % DAY + offset >= DAY then 1 else if instant % DAY + offset < 0 then -1 else 0)
  {}

  /** Opening a file for appending creates it when it is missing. */
  function Appended(dir: Directory, name: Name, items: seq<Item>): Directory {
    dir[name := Contents(dir, name) + items]
  }

  /** Writing a day's own lines keeps a seeded directory seeded. */
  lemma AppendKeepsSeeded(dir: Directory, day: int, items: seq<Item>)
    requires SeededOnly(dir) && OfDay(items, day)
    ensures SeededOnly(Appended(dir, Day(day), items))
  {
    OfDayConcat(Contents(dir, Day(day)), items, day);
    hide OfDay;
  }

  lemma OfDayConcat(a: seq<Item>, b: seq<Item>, day: int)
    ensures OfDay(a, day) && OfDay(b, day) ==> OfDay(a + b, day)
    ensures OfDay([], day)
  {
    hide LineOf;
    assert forall k :: 0 <= k < |a + b| ==> (a + b)[k] == if k < |a| then a[k] else b[k - |a|];
  }

  lemma AppendedContents(dir: Directory, name: Name, items: seq<Item>)
    ensures Contents(Appended(dir, name, items), name) == Contents(dir, name) + items
    ensures forall other :: other != name ==> Contents(Appended(dir, name, items), other) == Contents(dir, other)
  {
    forall other | other != name ensures Contents(Appended(dir, name, items), other) == Contents(dir, other) {}
  }

  lemma NonEmptyHasMember(s: set<int>)
    ensures s == {} || exists d :: d in s
  {
    if forall d :: d !in s { assert s == {}; }
  }

  function Group(byDate: map<int, seq<Item>>, day: int): seq<Item> {
    if day in byDate then byDate[day] else []
  }

  /** `byDate` holds the lines of every day that has any. */
  ghost predicate Grouped(byDate: map<int, seq<Item>>, entries: seq<Entry>) {
    forall day :: Group(byDate, day) == LinesOn(entries, day) && (day in byDate <==> LinesOn(entries, day) != [])
  }

  lemma GroupedOneMore(byDate: map<int, seq<Item>>, entries: seq<Entry>, i: nat)
    requires i < |entries| && Grouped(byDate, entries[..i])
    ensures var d := DayOf(entries[i].ts);
            Grouped(byDate[d := Group(byDate, d) + [Line(entries[i])]], entries[..i + 1])
  {
    hide DayOf;
    var d := DayOf(entries[i].ts);
    var after := byDate[d := Group(byDate, d) + [Line(entries[i])]];
    assert entries[..i + 1][..i] == entries[..i];
    forall day ensures Group(after, day) == LinesOn(entries[..i + 1], day)
                    && (day in after <==> LinesOn(entries[..i + 1], day) != [])
    {
      assert Group(byDate, day) == LinesOn(entries[..i], day);
    }
  }

  lemma GroupedDays(byDate: map<int, seq<Item>>, entries: seq<Entry>)
    requires Grouped(byDate, entries)
    ensures (forall day :: day in byDate ==> InCalendar(day)) <==> forall i :: 0 <= i < |entries| ==> InCalendar(DayOf(entries[i].ts))
  {
    hide InCalendar, DayOf;
    forall day ensures day in byDate <==> exists i :: 0 <= i < |entries| && DayOf(entries[i].ts) == day {
      assert Group(byDate, day) == LinesOn(entries, day);
      LinesOnEmptyIff(entries, day);
    }
    forall i | 0 <= i < |entries| ensures DayOf(entries[i].ts) in byDate {}
  }

  lemma {:induction false} LinesOnAreOfDay(es: seq<Entry>, day: int)
    ensures forall k :: 0 <= k < |LinesOn(es, day)| ==> LinesOn(es, day)[k].Line? && DayOf(LinesOn(es, day)[k].entry.ts) == day
  {
    if es != [] { LinesOnAreOfDay(es[..|es| - 1], day); }
  }

  class DebugLogRepo {
    var dir: Directory
    const fold: Folding
    const sorter: Sorter
    const lister: Lister

    constructor (fold: Folding, sorter: Sorter, lister: Lister)
      ensures dir == map[] && this.fold == fold && this.sorter == sorter && this.lister == lister
    {
      dir := map[];
      this.fold := fold;
      this.sorter := sorter;
      this.lister := lister;
    }

    method ReadDir() returns (files: seq<LogFile>)
      ensures files == lister(dir)
    {
      return lister(dir);
    }

    method ResolveFiles(f: Filter, files: seq<LogFile>) returns (matched: seq<LogFile>)
      ensures matched == Resolved(files, f)
    {
      matched := [];
      for i := 0 to |files|
        invariant matched == Resolved(files[..i], f)
      {
        assert files[..i + 1][..i] == files[..i];
        if Kept(files[i], f) { matched := matched + [files[i]]; }
      }
      assert files[..|files|] == files;
    }

    /** None stands for the loop that does not end, which malformed text causes (ReadingEndsIff). */
    method ReadFile(items: seq<Item>) returns (entries: Option<seq<Entry>>)
      ensures entries.None? <==> !WellFormed(items)
      ensures entries.Some? ==> entries.value == Entries(items)
    {
      var kept := [];
      for pos := 0 to |items|
        invariant WellFormed(items[..pos]) && kept == Entries(items[..pos])
      {
        assert items[..pos + 1][..pos] == items[..pos];
        if items[pos].Broken? {
          assert !WellFormed(items);
          return None;
        }
        if items[pos].Line? { kept := kept + [items[pos].entry]; }
      }
      assert items[..|items|] == items;
      return Some(kept);
    }

    method ApplyFilter(entries: seq<Entry>, f: Filter) returns (result: seq<Entry>)
      ensures result == Matching(entries, f, fold)
    {
      result := [];
      for i := 0 to |entries|
        invariant result == Matching(entries[..i], f, fold)
      {
        assert entries[..i + 1][..i] == entries[..i];
        if MatchFilter(entries[i], f, fold) { result := result + [entries[i]]; }
      }
      assert entries[..|entries|] == entries;
    }

    method ReadFiles(files: seq<LogFile>) returns (all: Option<seq<Entry>>)
      ensures all.None? <==> AnyBroken(files)
      ensures all.Some? ==> all.value == AllEntries(files)
    {
      hide WellFormed;
      var read := [];
      for i := 0 to |files|
        invariant forall j :: 0 <= j < i ==> WellFormed(files[j].items)
        invariant read == AllEntries(files[..i])
      {
        assert files[..i + 1][..i] == files[..i];
        var entries := ReadFile(files[i].items);
        if entries.None? { return None; }
        read := read + entries.value;
      }
      assert files[..|files|] == files;
      return Some(read);
    }

    /** One page of the answer and the number of all matching entries, as QueryPage and QueryTotal say. None stands for a
        query that does not end, because a file that it reads holds malformed text. */
    method Query(f: Filter) returns (answer: Option<(seq<Entry>, nat)>)
      requires Sorts(sorter) && Lists(lister)
      ensures answer.None? <==> exists name :: ReadsBroken(dir, name, f)
      ensures answer.Some? ==>
                && answer.value.0 == QueryPage(dir, f, fold, sorter, lister)
                && answer.value.1 == QueryTotal(dir, f, fold, sorter, lister)
      ensures answer.Some? ==> forall k :: 0 <= k < |answer.value.0| ==> AllMet(answer.value.0[k], f, fold)
    {
      hide MatchFilter, AllMet, Kept, PageOf, WellFormed;
      var files := ReadDir();
      var kept := ResolveFiles(f, files);
      var all := ReadFiles(kept);
      ResolvedMembers(files, f);
      KeptBrokenIff(dir, files, kept, f);
      if all.None? { return None; }
      var filtered := ApplyFilter(all.value, f);
      var sorted := sorter(filtered, f.sort == "" || f.sort == "desc");
      SortKeepsLength(sorter, filtered, f.sort == "" || f.sort == "desc");
      var page := Cut(sorted, f);
      PageMatches(dir, f, fold, sorter, lister);
      forall k | 0 <= k < |page| ensures AllMet(page[k], f, fold) {
        assert page[k] in page;
        MatchesIffAllMet(page[k], f, fold);
      }
      return Some((page, |filtered|));
    }

    method Cut(sorted: seq<Entry>, f: Filter) returns (page: seq<Entry>)
      ensures page == PageOf(sorted, f.page, f.pageSize)
    {
      var p := if f.page < 1 then 1 else f.page;
      var size := if f.pageSize < 1 then 50 else f.pageSize;
      StartBound(p, size);
      var start := (p - 1) * size;
      if start >= |sorted| { return []; }
      var end := start + size;
      if end > |sorted| { end := |sorted|; }
      return sorted[start..end];
    }

    /** Each day's entries are appended to that day's file, in order. A time outside the four-digit years stops the
        seeding; a day's lines are then written completely or not at all. */
    method Seed(entries: seq<Entry>) returns (ok: bool)
      modifies this
      ensures SeededOnly(old(dir)) ==> SeededOnly(dir)
      ensures ok <==> forall i :: 0 <= i < |entries| ==> InCalendar(DayOf(entries[i].ts))
      ensures forall day ::
                || Contents(dir, Day(day)) == Contents(old(dir), Day(day)) + LinesOn(entries, day)
                || (!ok && Contents(dir, Day(day)) == Contents(old(dir), Day(day)))
      ensures forall text :: Contents(dir, Other(text)) == Contents(old(dir), Other(text))
    {
      hide InCalendar, DayOf, Contents, Appended, SeededOnly, LinesOn;
      var byDate := GroupByDate(entries);
      GroupedDays(byDate, entries);
      var rest: set<int> := byDate.Keys;
      ghost var before := dir;
      while rest != {}
        invariant rest <= byDate.Keys && (SeededOnly(before) ==> SeededOnly(dir))
        invariant forall day :: day in byDate && day !in rest ==> InCalendar(day)
        invariant forall day :: Contents(dir, Day(day)) == Contents(before, Day(day)) + if day in rest then [] else Group(byDate, day)
        invariant forall text :: Contents(dir, Other(text)) == Contents(before, Other(text))
        decreases rest
      {
        NonEmptyHasMember(rest);
        var day :| day in rest;
        var written := InCalendar(day);
        WriteDay(day, if written then byDate[day] else [], entries);
        if !written { return false; }
        rest := rest - {day};
      }
      return true;
    }

    /** Appends one day's lines to its file. */
    method WriteDay(day: int, lines: seq<Item>, ghost entries: seq<Entry>)
      requires lines == [] || (InCalendar(day) && lines == LinesOn(entries, day))
      modifies this
      ensures SeededOnly(old(dir)) ==> SeededOnly(dir)
      ensures forall name :: Contents(dir, name) == Contents(old(dir), name) + if name == Day(day) then lines else []
    {
      hide InCalendar, DayOf, Contents, Appended, SeededOnly;
      LinesOnAreOfDay(entries, day);
      AppendedContents(dir, Day(day), lines);
      if SeededOnly(dir) { AppendKeepsSeeded(dir, day, lines); }
      dir := Appended(dir, Day(day), lines);
    }

    method GroupByDate(entries: seq<Entry>) returns (byDate: map<int, seq<Item>>)
      ensures Grouped(byDate, entries)
    {
      byDate := map[];
      for i := 0 to |entries|
        invariant Grouped(byDate, entries[..i])
      {
        GroupedOneMore(byDate, entries, i);
        var dateKey := DayOf(entries[i].ts);
        byDate := byDate[dateKey := (if dateKey in byDate then byDate[dateKey] else []) + [Line(entries[i])]];
      }
      assert entries[..|entries|] == entries;
    }
  }

  lemma {:induction false} ResolvedMembers(files: seq<LogFile>, f: Filter)
    ensures forall file :: file in Resolved(files, f) <==> file in files && Kept(file, f)
  {
    hide Kept;
    if files != [] {
      ResolvedMembers(files[..|files| - 1], f);
      assert files == files[..|files| - 1] + [files[|files| - 1]];
    }
  }

  lemma KeptBrokenIff(dir: Directory, files: seq<LogFile>, kept: seq<LogFile>, f: Filter)
    requires IsListing(dir, files) && forall file :: file in kept <==> file in files && Kept(file, f)
    ensures AnyBroken(kept) <==> exists name :: ReadsBroken(dir, name, f)
  {
    hide Kept;
    forall name | ReadsBroken(dir, name, f) ensures AnyBroken(kept) {
      var j :| 0 <= j < |files| && files[j].name == name;
      assert files[j] == LogFile(name, dir[name]) && files[j] in kept;
      var i :| 0 <= i < |kept| && kept[i] == files[j];
      assert !WellFormed(kept[i].items);
    }
    if AnyBroken(kept) {
      var i :| 0 <= i < |kept| && !WellFormed(kept[i].items);
      assert kept[i] in kept && kept[i] in files;
      var name := kept[i].name;
      assert kept[i] == LogFile(name, dir[name]);
      assert ReadsBroken(dir, name, f);
    }
  }

  lemma SortKeepsLength(sorter: Sorter, es: seq<Entry>, descending: bool)
    requires Sorts(sorter)
    ensures |sorter(es, descending)| == |es|
  {
    assert multiset(sorter(es, descending)) == multiset(es);
    assert |multiset(sorter(es, descending))| == |sorter(es, descending)| && |multiset(es)| == |es|;
  }
}
