/** A disposable overlay of one read transaction: writes shadow the base, and scans page
    over a cached merge of both. */
module InspectionOverlay {
  import opened Wrappers
  import opened KeyOrder
  import StableSort

  type Value = seq<byte>

  datatype Request = Request(namespace: string, start: Key, end: Key, after: Key, limit: int)

  datatype Page = Page(records: seq<Record>, hasMore: bool, next: Key)

  datatype Error = NotFound | InvalidArgument

  // ----- The meaning of a scan -----

  predicate InRange(key: Key, req: Request) {
    && !Less(key, req.start)
    && (req.end != [] ==> Less(key, req.end))
    && (req.after != [] ==> Less(req.after, key))
  }

  /** The rows of the first `k` that a request selects. */
  function Selected(rows: seq<Record>, req: Request, k: nat): seq<Record>
    requires k <= |rows|
  {
    if k == 0 then []
    else if InRange(rows[k - 1].key, req) then Selected(rows, req, k - 1) + [rows[k - 1]]
    else Selected(rows, req, k - 1)
  }

  /** One page: the first `limit` selected rows, and whether and where to go on. */
  function PageOf(rows: seq<Record>, req: Request): Page
    requires req.limit > 0
  {
    var all := Selected(rows, req, |rows|);
    if |all| <= req.limit then Page(all, false, []) else Page(all[..req.limit], true, all[req.limit - 1].key)
  }

  /** The result of a scan of a plain table. */
  ghost predicate Scans(table: Table, req: Request, page: Page)
    requires req.limit > 0
  {
    exists rows :: IsRows(rows, table) && page == PageOf(rows, req)
  }

  lemma ScansOnce(table: Table, req: Request, a: Page, b: Page)
    requires req.limit > 0 && Scans(table, req, a) && Scans(table, req, b)
    ensures a == b
  {
    hide IsRows;
    var x :| IsRows(x, table) && a == PageOf(x, req);
    var y :| IsRows(y, table) && b == PageOf(y, req);
    RowsUnique(x, y, table);
  }

  /** What a storage backend demands of a scan request. */
  predicate ValidRequest(req: Request) {
    req.namespace != "" && req.limit > 0 && (req.start != [] && req.end != [] ==> Less(req.start, req.end))
  }

  // ----- The overlay -----

  type Writes = map<Key, Option<Value>>

  /** The base overridden by writes; a None write is a deletion. */
  function Overridden(base: Table, writes: Writes): Table {
    map key | key in base.Keys + writes.Keys && (key in writes ==> writes[key].Some?) ::
      if key in writes then writes[key].value else base[key]
  }

  lemma OverriddenPut(base: Table, writes: Writes, key: Key, value: Option<Value>)
    ensures Overridden(base, writes[key := value]) ==
      if value.Some? then Overridden(base, writes)[key := value.value] else Overridden(base, writes) - {key}
  {
  }

  lemma NothingOverridden(base: Table)
    ensures Overridden(base, map[]) == base
  {
  }

  /** The writes already applied when `rest` is still to come. */
  function Without(writes: Writes, rest: set<Key>): Writes {
    map key | key in writes && key !in rest :: writes[key]
  }

  lemma NothingWritten(base: Table, writes: Writes)
    ensures Overridden(base, Without(writes, writes.Keys)) == base
  {
  }

  /** Dump a map in some order. */
  method Dump(table: Table) returns (rows: seq<Record>)
    ensures IsRows(StableSort.Sort(rows, RowLess()), table)
  {
    rows := [];
    var rest := table.Keys;
    while rest != {}
      invariant rest <= table.Keys
      invariant forall i :: 0 <= i < |rows| ==>
        rows[i].key in table && rows[i].key !in rest && table[rows[i].key] == rows[i].value
      invariant forall i, j :: 0 <= i < j < |rows| ==> rows[i].key != rows[j].key
      invariant forall key :: key in table && key !in rest ==> exists i :: 0 <= i < |rows| && rows[i].key == key
      decreases |rest|
    {
      var key :| key in rest;
      ghost var before := rows;
      rest := rest - {key};
      rows := rows + [Record(key, table[key])];
      assert rows[|before|].key == key;
      assert forall i :: 0 <= i < |before| ==> rows[i] == before[i];
    }
    SortedIsRows(rows, table);
  }

  class Overlay {
    const base: map<string, Table>
    var writes: map<string, Writes>
    var merged: map<string, seq<Record>>

    function BaseTable(namespace: string): Table {
      if namespace in base then base[namespace] else map[]
    }

    function WritesTo(namespace: string): Writes
      reads this
    {
      if namespace in writes then writes[namespace] else map[]
    }

    /** The plain map that the overlay stands for. */
    function View(namespace: string): Table
      reads this
    {
      Overridden(BaseTable(namespace), WritesTo(namespace))
    }

    /** Every cached merge is the rows of its view. */
    ghost predicate Valid()
      reads this
    {
      "" !in merged && forall namespace :: namespace in merged ==> IsRows(merged[namespace], View(namespace))
    }

    constructor (base: map<string, Table>)
      ensures Valid() && this.base == base && writes == map[]
      ensures forall namespace :: View(namespace) == if namespace in base then base[namespace] else map[]
    {
      this.base, writes, merged := base, map[], map[];
    }

    /** The base transaction's own scan. */
    method ReadScan(req: Request) returns (r: Result<Page, Error>)
      ensures
        if ValidRequest(req) then r.Ok? && Scans(BaseTable(req.namespace), req, r.value)
        else r == Err(InvalidArgument)
    {
      if !ValidRequest(req) {
        return Err(InvalidArgument);
      }
      var rows := Dump(BaseTable(req.namespace));
      rows := StableSort.Sort(rows, RowLess());
      return Ok(PageOf(rows, req));
    }

    /** The base transaction's own read refuses an empty namespace or key. */
    method ReadGet(namespace: string, key: Key) returns (r: Result<Value, Error>)
      ensures r == if namespace == "" || key == [] then Err(InvalidArgument)
                   else if key in BaseTable(namespace) then Ok(BaseTable(namespace)[key])
                   else Err(NotFound)
    {
      if namespace == "" || |key| == 0 {
        return Err(InvalidArgument);
      }
      return if key in BaseTable(namespace) then Ok(BaseTable(namespace)[key]) else Err(NotFound);
    }

    /** A read of the view, except that what was never written is asked of the base, which
        refuses an empty namespace or key. */
    method Get(namespace: string, key: Key) returns (r: Result<Value, Error>)
      ensures r == if key !in WritesTo(namespace) && (namespace == "" || key == []) then Err(InvalidArgument)
                   else if key in View(namespace) then Ok(View(namespace)[key])
                   else Err(NotFound)
    {
      if namespace in writes && key in writes[namespace] {
        var value := writes[namespace][key];
        return if value.None? then Err(NotFound) else Ok(value.value);
      }
      r := ReadGet(namespace, key);
    }

    method Put(namespace: string, key: Key, value: Value)
      requires Valid()
      modifies this
      ensures Valid()
      ensures View(namespace) == old(View(namespace))[key := value]
      ensures forall other :: other != namespace ==> View(other) == old(View(other))
    {
      hide Overridden, IsRows;
      OverriddenPut(BaseTable(namespace), WritesTo(namespace), key, Some(value));
      merged := merged - {namespace};
      if namespace !in writes {
        writes := writes[namespace := map[]];
      }
      writes := writes[namespace := writes[namespace][key := Some(value)]];
    }

    method Delete(namespace: string, key: Key)
      requires Valid()
      modifies this
      ensures Valid()
      ensures View(namespace) == old(View(namespace)) - {key}
      ensures forall other :: other != namespace ==> View(other) == old(View(other))
    {
      hide Overridden, IsRows;
      OverriddenPut(BaseTable(namespace), WritesTo(namespace), key, None);
      merged := merged - {namespace};
      if namespace !in writes {
        writes := writes[namespace := map[]];
      }
      writes := writes[namespace := writes[namespace][key := None]];
    }

    /** A scan is the scan of the view, except that a namespace without writes still has
        the base reject what a backend rejects. */
    method Scan(req: Request) returns (r: Result<Page, Error>)
      requires Valid()
      modifies this`merged
      ensures Valid()
      ensures r.Ok? <==>
        && req.limit > 0 && req.namespace != ""
        && (WritesTo(req.namespace) != map[] || req.start == [] || req.end == [] || Below(req.start, req.end))
      ensures r.Ok? ==> Scans(View(req.namespace), req, r.value)
      ensures r.Ok? && WritesTo(req.namespace) != map[] ==> req.namespace in merged
      ensures forall namespace :: namespace in old(merged) ==>
        namespace in merged && merged[namespace] == old(merged)[namespace]
      ensures r.Err? ==> r == Err(InvalidArgument)
    {
      hide Less, Below, Selected, InRange, StrictlySorted, Overridden;
      LessIff(req.start, req.end);
      if req.limit <= 0 {
        return Err(InvalidArgument);
      }
      if |WritesTo(req.namespace)| == 0 {
        assert WritesTo(req.namespace) == map[];
        NothingOverridden(BaseTable(req.namespace));
        r := ReadScan(req);
        return;
      }
      if req.namespace !in merged && req.namespace == "" {
        // The base refuses the first page of the merge.
        r := ReadScan(Request("", [], [], [], 256));
        return;
      }
      var rows := MergedRows(req.namespace);
      var page := CutPage(rows, req);
      return Ok(page);
    }

    /** The cached merge of a namespace, made now unless it is there. */
    method MergedRows(namespace: string) returns (rows: seq<Record>)
      requires Valid() && namespace != ""
      modifies this`merged
      ensures Valid()
      ensures IsRows(rows, View(namespace)) && StrictlySorted(rows)
      ensures merged == old(merged)[namespace := rows]
      ensures namespace in old(merged) ==> rows == old(merged)[namespace]
    {
      if namespace in merged {
        rows := merged[namespace];
      } else {
        rows := Merge(namespace);
        merged := merged[namespace := rows];
      }
      RowsAreSorted(rows, View(namespace));
    }

    /** Page through the whole base, apply the writes, and sort. */
    method Merge(namespace: string) returns (rows: seq<Record>)
      requires namespace != ""
      ensures IsRows(rows, View(namespace))
    {
      hide Overridden, IsRows;
      var table: Table := ReadAll(namespace);
      var all := WritesTo(namespace);
      var rest := all.Keys;
      NothingWritten(table, all);
      while rest != {}
        invariant rest <= all.Keys
        invariant table == Overridden(BaseTable(namespace), Without(all, rest))
        decreases |rest|
      {
        var key :| key in rest;
        assert Without(all, rest - {key}) == Without(all, rest)[key := all[key]];
        OverriddenPut(BaseTable(namespace), Without(all, rest), key, all[key]);
        rest := rest - {key};
        if all[key].None? {
          table := table - {key};
        } else {
          table := table[key := all[key].value];
        }
      }
      assert Without(all, {}) == all;
      var dump := Dump(table);
      rows := StableSort.Sort(dump, RowLess());
    }

    method ReadPage(req: Request, ghost all: seq<Record>) returns (page: Page)
      requires ValidRequest(req) && IsRows(all, BaseTable(req.namespace))
      ensures page == PageOf(all, req)
    {
      hide Less, IsRows, Selected;
      var r := ReadScan(req);
      page := r.value;
      ghost var same :| IsRows(same, BaseTable(req.namespace)) && page == PageOf(same, req);
      RowsUnique(same, all, BaseTable(req.namespace));
    }

    /** Follow the base's pages, 256 rows at a time, to the end. */
    method ReadAll(namespace: string) returns (table: Table)
      requires namespace != ""
      ensures table == BaseTable(namespace)
    {
      hide Less, Below, IsRows, Selected, InRange, StrictlySorted, BaseTable;
      var req := Request(namespace, [], [], [], 256);
      ghost var first := req;
      ghost var all := RowsExist(BaseTable(namespace));
      ghost var at: nat := 0;
      RowsAreSorted(all, BaseTable(namespace));
      SelectsEverything(all, first, |all|);
      table := map[];
      while true
        invariant req == first.(after := req.after)
        invariant at <= |all| && Selected(all, req, |all|) == all[at..]
        invariant table == Collected(all, at)
        decreases |all| - at
      {
        var page := ReadPage(req, all);
        table := AddRecords(table, page.records, all, at);
        at := at + |page.records|;
        if !page.hasMore {
          break;
        }
        NotEmptyAbove(all[0].key, all[at - 1].key);
        SelectedAfter(all, first, at - 1);
        req := req.(after := page.next);
      }
      CollectedAll(all, BaseTable(namespace));
    }

    method AddRecords(before: Table, records: seq<Record>, ghost all: seq<Record>, ghost at: nat) returns (table: Table)
      requires at + |records| <= |all| && records == all[at..at + |records|] && before == Collected(all, at)
      ensures table == Collected(all, at + |records|)
    {
      table := before;
      for i := 0 to |records|
        invariant table == Collected(all, at + i)
      {
        assert records[i] == all[at + i];
        table := table[records[i].key := records[i].value];
      }
    }

    /** sort.Search for the first row that the request may start with. */
    method FirstRow(rows: seq<Record>, req: Request) returns (first: nat)
      requires StrictlySorted(rows)
      ensures first <= |rows|
      ensures forall i :: 0 <= i < first ==> !InRange(rows[i].key, req)
      ensures forall i :: first <= i < |rows| ==> MayStart(rows[i].key, req)
    {
      first := 0;
      var high := |rows|;
      while first < high
        invariant first <= high <= |rows|
        invariant forall i :: 0 <= i < first ==> !MayStart(rows[i].key, req)
        invariant forall i :: high <= i < |rows| ==> MayStart(rows[i].key, req)
      {
        var middle := (first + high) / 2;
        StartIsMonotone(rows, req, middle);
        if MayStart(rows[middle].key, req) {
          high := middle;
        } else {
          first := middle + 1;
        }
      }
    }

    method CutPage(rows: seq<Record>, req: Request) returns (page: Page)
      requires StrictlySorted(rows) && req.limit > 0
      ensures page == PageOf(rows, req)
    {
      hide Less, StrictlySorted;
      var first := FirstRow(rows, req);
      NoneSelected(rows, req, 0, first);
      var records: seq<Record> := [];
      for i := first to |rows|
        invariant records == Selected(rows, req, i) && |records| <= req.limit
      {
        if req.end != [] && !Less(rows[i].key, req.end) {
          EndIsMonotone(rows, req, i);
          NoneSelected(rows, req, i, |rows|);
          return Page(records, false, []);
        }
        if |records| == req.limit {
          SelectedGrows(rows, req, i + 1, |rows|);
          return Page(records, true, records[|records| - 1].key);
        }
        records := records + [rows[i]];
      }
      return Page(records, false, []);
    }
  }

  // ----- Selection -----

  predicate MayStart(key: Key, req: Request) {
    !Less(key, req.start) && (req.after == [] || Less(req.after, key))
  }

  lemma StartIsMonotone(rows: seq<Record>, req: Request, i: nat)
    requires StrictlySorted(rows) && i < |rows|
    ensures MayStart(rows[i].key, req) ==> forall j :: i <= j < |rows| ==> MayStart(rows[j].key, req)
    ensures !MayStart(rows[i].key, req) ==> forall j :: 0 <= j <= i ==> !MayStart(rows[j].key, req)
  {
    hide Less;
    forall j, k | 0 <= j < k < |rows| && MayStart(rows[j].key, req) ensures MayStart(rows[k].key, req) {
      if Less(rows[k].key, req.start) {
        LessTransitive(rows[j].key, rows[k].key, req.start);
      }
      if req.after != [] {
        LessTransitive(req.after, rows[j].key, rows[k].key);
      }
    }
  }

  lemma EndIsMonotone(rows: seq<Record>, req: Request, i: nat)
    requires StrictlySorted(rows) && i < |rows| && req.end != [] && !Less(rows[i].key, req.end)
    ensures forall j :: i <= j < |rows| ==> !InRange(rows[j].key, req)
  {
    hide Less;
    forall j | i < j < |rows| ensures !Less(rows[j].key, req.end) {
      if Less(rows[j].key, req.end) {
        LessTransitive(rows[i].key, rows[j].key, req.end);
      }
    }
  }

  lemma {:induction false} NoneSelected(rows: seq<Record>, req: Request, i: nat, j: nat)
    requires i <= j <= |rows| && forall k :: i <= k < j ==> !InRange(rows[k].key, req)
    ensures Selected(rows, req, j) == Selected(rows, req, i)
  {
    if i < j {
      NoneSelected(rows, req, i, j - 1);
    }
  }

  lemma {:induction false} SelectedGrows(rows: seq<Record>, req: Request, i: nat, j: nat)
    requires i <= j <= |rows|
    ensures Selected(rows, req, i) <= Selected(rows, req, j)
  {
    if i < j {
      SelectedGrows(rows, req, i, j - 1);
    }
  }

  lemma {:induction false} SelectedSorted(rows: seq<Record>, req: Request, k: nat)
    requires StrictlySorted(rows) && k <= |rows|
    ensures StrictlySorted(Selected(rows, req, k))
    ensures forall row :: row in Selected(rows, req, k) <==> row in rows[..k] && InRange(row.key, req)
    ensures k < |rows| ==> forall row :: row in Selected(rows, req, k) ==> Less(row.key, rows[k].key)
  {
    hide Less, InRange;
    if k > 0 {
      SelectedSorted(rows, req, k - 1);
    }
  }

  lemma {:induction false} SelectsEverything(rows: seq<Record>, req: Request, k: nat)
    requires k <= |rows| && req.start == [] && req.end == [] && req.after == []
    ensures Selected(rows, req, k) == rows[..k]
    ensures k == |rows| ==> Selected(rows, req, k) == rows
  {
    if k > 0 {
      SelectsEverything(rows, req, k - 1);
    }
  }

  /** Going on after row `i` of a selection selects exactly the rows behind it. */
  lemma SelectedAfter(rows: seq<Record>, req: Request, i: nat)
    requires StrictlySorted(rows) && req.after == []
    requires i < |Selected(rows, req, |rows|)| && Selected(rows, req, |rows|)[i].key != []
    ensures
      var all := Selected(rows, req, |rows|);
      Selected(rows, req.(after := all[i].key), |rows|) == all[i + 1..]
  {
    SelectedAfterFront(rows, req, i, |rows|);
  }

  lemma {:induction false} SelectedAfterFront(rows: seq<Record>, req: Request, i: nat, k: nat)
    requires StrictlySorted(rows) && req.after == [] && k <= |rows|
    requires i < |Selected(rows, req, |rows|)| && Selected(rows, req, |rows|)[i].key != []
    ensures var after := req.(after := Selected(rows, req, |rows|)[i].key);
      Selected(rows, after, k) == if |Selected(rows, req, k)| <= i then [] else Selected(rows, req, k)[i + 1..]
  {
    hide Less;
    if k > 0 {
      SelectedAfterFront(rows, req, i, k - 1);
      SelectedGrows(rows, req, k, |rows|);
      SelectedSorted(rows, req, |rows|);
      var all, row, n := Selected(rows, req, |rows|), rows[k - 1], |Selected(rows, req, k - 1)|;
      if InRange(row.key, req) {
        assert all[n] == row;
        if n == i {
          LessIrreflexive(row.key);
        } else if n < i && Less(all[i].key, row.key) {
          LessTransitive(all[i].key, row.key, all[i].key);
          LessIrreflexive(all[i].key);
        }
      }
    }
  }

  /** The keys that a request asks for: from its start, before its end, behind the position
      it goes on from; an empty bound is none. */
  predicate Asked(key: Key, req: Request) {
    && (key == req.start || Below(req.start, key))
    && (req.end == [] || Below(key, req.end))
    && (req.after == [] || Below(req.after, key))
  }

  lemma AskedIff(key: Key, req: Request)
    ensures InRange(key, req) <==> Asked(key, req)
  {
    hide Less, Below;
    LessIff(req.start, key);
    LessIff(key, req.start);
    LessIff(key, req.end);
    LessIff(req.after, key);
    LessTotal(key, req.start);
    if Less(key, req.start) && Less(req.start, key) {
      LessTransitive(key, req.start, key);
    }
    LessIrreflexive(key);
  }

  /** A page holds rows that were asked for, in key order, none of them left out before its
      end; it ends early only when it is full, and says so with the position to go on from. */
  ghost predicate IsPage(table: Table, req: Request, page: Page) {
    var n := |page.records|;
    && n <= req.limit
    && (forall i, j :: 0 <= i < j < n ==> Below(page.records[i].key, page.records[j].key))
    && (forall i :: 0 <= i < n ==>
          var row := page.records[i];
          row.key in table && table[row.key] == row.value && Asked(row.key, req))
    && (page.hasMore <==> exists key :: key in table && Asked(key, req) && IsBehind(key, page.records))
    && (forall key :: key in table && Asked(key, req) && !IsBehind(key, page.records) ==>
          exists i :: 0 <= i < n && page.records[i].key == key)
    && (if page.hasMore then 0 < n == req.limit && page.next == page.records[n - 1].key else page.next == [])
  }

  predicate IsBehind(key: Key, records: seq<Record>) {
    forall i :: 0 <= i < |records| ==> Below(records[i].key, key)
  }

  /** The selected rows are what was asked for, all of it, in order. */
  ghost predicate IsSelection(table: Table, req: Request, all: seq<Record>) {
    && (forall i, j :: 0 <= i < j < |all| ==> Below(all[i].key, all[j].key))
    && (forall i :: 0 <= i < |all| ==>
          all[i].key in table && table[all[i].key] == all[i].value && Asked(all[i].key, req))
    && (forall key :: key in table && Asked(key, req) ==> exists i :: 0 <= i < |all| && all[i].key == key)
  }

  lemma SelectionIs(rows: seq<Record>, table: Table, req: Request)
    requires IsRows(rows, table)
    ensures IsSelection(table, req, Selected(rows, req, |rows|))
  {
    hide Less, Below, Selected, InRange, Asked;
    var all := Selected(rows, req, |rows|);
    SelectedSorted(rows, req, |rows|);
    assert rows[..|rows|] == rows;
    forall i, j | 0 <= i < j < |all| ensures Below(all[i].key, all[j].key) {
      LessIff(all[i].key, all[j].key);
    }
    forall i | 0 <= i < |all|
      ensures all[i].key in table && table[all[i].key] == all[i].value && Asked(all[i].key, req)
    {
      assert all[i] in all;
      AskedIff(all[i].key, req);
    }
    forall key | key in table && Asked(key, req) ensures exists i :: 0 <= i < |all| && all[i].key == key {
      AskedIff(key, req);
      var k :| 0 <= k < |rows| && rows[k].key == key;
      assert rows[k] in all;
    }
  }

  lemma BehindIff(table: Table, req: Request, all: seq<Record>, n: nat, i: nat)
    requires IsSelection(table, req, all) && n <= |all| && i < |all|
    ensures IsBehind(all[i].key, all[..n]) <==> n <= i
  {
    hide Below, Asked;
    if i < n {
      LessIff(all[i].key, all[i].key);
      LessIrreflexive(all[i].key);
      assert all[..n][i] == all[i];
    }
  }

  lemma FrontIsPage(table: Table, req: Request, all: seq<Record>)
    requires IsSelection(table, req, all) && req.limit > 0
    ensures IsPage(table, req, if |all| <= req.limit then Page(all, false, [])
                               else Page(all[..req.limit], true, all[req.limit - 1].key))
  {
    hide Below, Asked, IsBehind;
    var n := if |all| <= req.limit then |all| else req.limit;
    assert all[..|all|] == all;
    forall key | key in table && Asked(key, req)
      ensures exists i :: 0 <= i < |all| && all[i].key == key && (IsBehind(key, all[..n]) <==> n <= i)
    {
      var i :| 0 <= i < |all| && all[i].key == key;
      BehindIff(table, req, all, n, i);
    }
    if |all| > n {
      BehindIff(table, req, all, n, n);
    }
  }

  lemma PageIs(rows: seq<Record>, table: Table, req: Request)
    requires IsRows(rows, table) && req.limit > 0
    ensures IsPage(table, req, PageOf(rows, req))
  {
    hide IsRows, Selected, IsSelection, IsPage;
    SelectionIs(rows, table, req);
    FrontIsPage(table, req, Selected(rows, req, |rows|));
  }

  /** What any scan of a table returns. */
  lemma ScanIs(table: Table, req: Request, page: Page)
    requires req.limit > 0 && Scans(table, req, page)
    ensures IsPage(table, req, page)
  {
    hide PageOf, IsPage;
    var rows :| IsRows(rows, table) && page == PageOf(rows, req);
    PageIs(rows, table, req);
  }

  // ----- Reading back a table -----

  function Collected(rows: seq<Record>, k: nat): Table
    requires k <= |rows|
  {
    if k == 0 then map[] else Collected(rows, k - 1)[rows[k - 1].key := rows[k - 1].value]
  }

  lemma {:induction false} CollectedLookup(rows: seq<Record>, table: Table, k: nat)
    requires IsRows(rows, table) && k <= |rows|
    ensures forall key :: key in Collected(rows, k) <==> exists i :: 0 <= i < k && rows[i].key == key
    ensures forall key :: key in Collected(rows, k) ==> key in table && Collected(rows, k)[key] == table[key]
  {
    hide Less;
    if k > 0 {
      CollectedLookup(rows, table, k - 1);
      assert rows[k - 1].key == rows[k - 1].key;
    }
  }

  lemma CollectedAll(rows: seq<Record>, table: Table)
    requires IsRows(rows, table)
    ensures Collected(rows, |rows|) == table
  {
    CollectedLookup(rows, table, |rows|);
  }

  lemma RowsAreSorted(rows: seq<Record>, table: Table)
    requires IsRows(rows, table)
    ensures StrictlySorted(rows)
  {
  }

  lemma RowsExist(table: Table) returns (rows: seq<Record>)
    ensures IsRows(rows, table)
  {
    var list := Listed(table);
    SortedIsRows(list, table);
    rows := StableSort.Sort(list, RowLess());
  }

  lemma {:induction false} Listed(table: Table) returns (rows: seq<Record>)
    ensures forall i :: 0 <= i < |rows| ==> rows[i].key in table && table[rows[i].key] == rows[i].value
    ensures forall i, j :: 0 <= i < j < |rows| ==> rows[i].key != rows[j].key
    ensures forall key :: key in table ==> exists i :: 0 <= i < |rows| && rows[i].key == key
    decreases |table|
  {
    if table == map[] {
      rows := [];
    } else {
      var key :| key in table;
      var rest := table - {key};
      assert table.Keys == rest.Keys + {key};
      var front := Listed(rest);
      rows := ListedMore(table, key, front);
    }
  }

  lemma ListedMore(table: Table, key: Key, front: seq<Record>) returns (rows: seq<Record>)
    requires key in table
    requires forall i :: 0 <= i < |front| ==>
      front[i].key in table && front[i].key != key && table[front[i].key] == front[i].value
    requires forall i, j :: 0 <= i < j < |front| ==> front[i].key != front[j].key
    requires forall k :: k in table && k != key ==> exists i :: 0 <= i < |front| && front[i].key == k
    ensures forall i :: 0 <= i < |rows| ==> rows[i].key in table && table[rows[i].key] == rows[i].value
    ensures forall i, j :: 0 <= i < j < |rows| ==> rows[i].key != rows[j].key
    ensures forall k :: k in table ==> exists i :: 0 <= i < |rows| && rows[i].key == k
  {
    rows := front + [Record(key, table[key])];
    forall k | k in table ensures exists i :: 0 <= i < |rows| && rows[i].key == k {
      if k == key {
        assert rows[|front|].key == k;
      } else {
        var i :| 0 <= i < |front| && front[i].key == k;
        assert rows[i].key == k;
      }
    }
  }

  // ----- Following the pages -----

  /** The records of up to `pages` pages, following Next. */
  function Walk(rows: seq<Record>, req: Request, pages: nat): seq<Record>
    requires req.limit > 0
    decreases pages
  {
    if pages == 0 then []
    else
      var page := PageOf(rows, req);
      page.records + if page.hasMore then Walk(rows, req.(after := page.next), pages - 1) else []
  }

  /** The one request that does not advance: one row a page, and the first row is the
      empty key, whose Next means no position at all. */
  predicate Stuck(all: seq<Record>, limit: int) {
    limit == 1 && |all| > 1 && all[0].key == []
  }

  /** The page that follows row `at - 1` of a selection. */
  lemma PageAt(rows: seq<Record>, req: Request, at: nat)
    requires StrictlySorted(rows) && req.limit > 0 && req.after == []
    requires 0 < at <= |Selected(rows, req, |rows|)| && Selected(rows, req, |rows|)[at - 1].key != []
    ensures var all, stop := Selected(rows, req, |rows|), at + req.limit;
      PageOf(rows, req.(after := all[at - 1].key)) ==
        if |all| <= stop then Page(all[at..], false, []) else Page(all[at..stop], true, all[stop - 1].key)
  {
    hide Less, Selected, InRange;
    var all, stop := Selected(rows, req, |rows|), at + req.limit;
    SelectedAfter(rows, req, at - 1);
    if |all| > stop {
      assert all[at..][..req.limit] == all[at..stop];
      assert all[at..][req.limit - 1] == all[stop - 1];
    }
  }

  lemma LaterKeyIsNotEmpty(rows: seq<Record>, req: Request, i: nat, j: nat)
    requires StrictlySorted(rows) && i < j < |Selected(rows, req, |rows|)|
    ensures Selected(rows, req, |rows|)[j].key != []
  {
    hide Less, Selected;
    var all := Selected(rows, req, |rows|);
    SelectedSorted(rows, req, |rows|);
    assert Less(all[i].key, all[j].key);
    NotEmptyAbove(all[i].key, all[j].key);
  }

  lemma {:induction false} WalkFrom(rows: seq<Record>, req: Request, at: nat, pages: nat)
    requires StrictlySorted(rows) && req.limit > 0 && req.after == []
    requires 0 < at <= |Selected(rows, req, |rows|)| && Selected(rows, req, |rows|)[at - 1].key != []
    requires pages > |Selected(rows, req, |rows|)| - at
    ensures var all := Selected(rows, req, |rows|);
      Walk(rows, req.(after := all[at - 1].key), pages) == all[at..]
    decreases pages
  {
    hide Less, Selected, PageOf, StrictlySorted;
    var all, stop := Selected(rows, req, |rows|), at + req.limit;
    PageAt(rows, req, at);
    if |all| > stop {
      LaterKeyIsNotEmpty(rows, req, at - 1, stop - 1);
      WalkFrom(rows, req, stop, pages - 1);
      assert all[at..stop] + all[stop..] == all[at..];
    }
  }

  lemma NotEmptyAbove(a: Key, b: Key)
    requires Less(a, b)
    ensures b != []
  {
  }

  /** A stuck walk returns its first row for ever. */
  lemma {:induction false} WalkStuck(rows: seq<Record>, req: Request, pages: nat)
    requires req.limit > 0 && req.after == [] && Stuck(Selected(rows, req, |rows|), req.limit)
    ensures forall row :: row in Walk(rows, req, pages) ==> row == Selected(rows, req, |rows|)[0]
    decreases pages
  {
    if pages > 0 {
      assert req.(after := []) == req;
      WalkStuck(rows, req, pages - 1);
    }
  }

  lemma WalkFree(rows: seq<Record>, req: Request, pages: nat)
    requires StrictlySorted(rows) && req.limit > 0 && req.after == []
    requires pages > |Selected(rows, req, |rows|)| && !Stuck(Selected(rows, req, |rows|), req.limit)
    ensures Walk(rows, req, pages) == Selected(rows, req, |rows|)
  {
    hide Less, Selected, StrictlySorted, PageOf;
    var all := Selected(rows, req, |rows|);
    FirstPage(rows, req);
    if |all| > req.limit {
      if req.limit > 1 {
        LaterKeyIsNotEmpty(rows, req, 0, req.limit - 1);
      }
      WalkFrom(rows, req, req.limit, pages - 1);
      assert all == all[..req.limit] + all[req.limit..];
    }
  }

  lemma FirstPage(rows: seq<Record>, req: Request)
    requires req.limit > 0
    ensures var all := Selected(rows, req, |rows|);
      PageOf(rows, req) ==
      if |all| <= req.limit then Page(all, false, [])
      else Page(all[..req.limit], true, all[req.limit - 1].key)
  {
    hide Selected;
  }

  /** Pagination: following Next from the start visits every selected row exactly once, in
      order, within one page per row, if and only if the walk is not stuck. */
  lemma WalkVisitsAllIff(rows: seq<Record>, req: Request, pages: nat)
    requires StrictlySorted(rows) && req.limit > 0 && req.after == []
    requires pages > |Selected(rows, req, |rows|)|
    ensures Walk(rows, req, pages) == Selected(rows, req, |rows|) <==> !Stuck(Selected(rows, req, |rows|), req.limit)
  {
    hide Less, Selected, Walk;
    var all := Selected(rows, req, |rows|);
    if Stuck(all, req.limit) {
      WalkStuck(rows, req, pages);
      SelectedSorted(rows, req, |rows|);
      assert Less(all[0].key, all[1].key);
      LessIrreflexive(all[0].key);
      assert all[1] in all;
    } else {
      WalkFree(rows, req, pages);
    }
  }
}
