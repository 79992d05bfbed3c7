/**
  The export table (src/lib/exporters.ts:18-141): `asRecord`, `getKey`,
  `buildRows`, the text `downloadCsv` writes, the array of arrays
  `downloadExcel` hands to the spreadsheet writer, and the two file-name
  rules. Receipts are read as untyped trees, with the Turkish keys of the
  export and no reference to the validated receipt type.
 */
module Exporters {
  import opened Wrappers
  import opened JsonValue
  import opened Text
  import opened Db
  import opened CsvCells
  import ExportDates

  type Record = map<string, Json>

  /** `asRecord` of the exporter: a plain object; arrays, `null` and scalars are not records. */
  function AsRecord(v: Option<Json>): Option<Record> {
    if v.Some? && v.value.JObj? then Some(v.value.fields) else None
  }

  /** `rec[k]`, `None` standing for `undefined`. */
  function Lookup(rec: Record, k: string): Option<Json> {
    if k in rec then Some(rec[k]) else None
  }

  /** A value `getKey` stops at: defined, not `null` and not the empty string. */
  predicate Usable(v: Option<Json>) {
    v.Some? && v.value != JNull && v.value != JStr("")
  }

  /** `keys[i]` is the first of `keys` whose value in `rec` is usable. */
  predicate FirstUsable(rec: Record, keys: seq<string>, i: int) {
    && 0 <= i < |keys|
    && Usable(Lookup(rec, keys[i]))
    && forall j :: 0 <= j < i ==> !Usable(Lookup(rec, keys[j]))
  }

  // ---------------------------------------------------------------------
  // getKey

  /**
    What `getKey(rec, ...keys)` returns: the value of the first key whose
    value is usable, and otherwise the empty string, also when there is no
    record at all. The result is never `null`.
   */
  function KeyValue(rec: Option<Record>, keys: seq<string>): (r: Json)
    ensures rec.None? ==> r == JStr("")
    ensures rec.Some? ==> forall i :: FirstUsable(rec.value, keys, i) ==> r == rec.value[keys[i]]
    ensures rec.Some? && (forall i :: 0 <= i < |keys| ==> !Usable(Lookup(rec.value, keys[i]))) ==> r == JStr("")
    ensures r != JNull
  {
    if rec.None? || keys == [] then JStr("")
    else if Usable(Lookup(rec.value, keys[0])) then rec.value[keys[0]]
    else
      var r := KeyValue(rec, keys[1..]);
      assert forall i :: FirstUsable(rec.value, keys, i) ==> i > 0 && FirstUsable(rec.value, keys[1..], i - 1);
      r
  }

  /** `getKey`: a search over the keys that returns as soon as one qualifies. */
  method GetKey(rec: Option<Record>, keys: seq<string>) returns (r: Json)
    ensures r == KeyValue(rec, keys)
  {
    if rec.None? {
      return JStr("");
    }
    var i := 0;
    while i < |keys|
      invariant 0 <= i <= |keys|
      invariant KeyValue(rec, keys[i..]) == KeyValue(rec, keys)
    {
      assert keys[i..][1..] == keys[i + 1..];
      var v := Lookup(rec.value, keys[i]);
      if Usable(v) {
        return v.value;
      }
      i := i + 1;
    }
    return JStr("");
  }

  /** `0` and `false` are values like any other: they are returned, not skipped. */
  lemma FalsyValuesKept(rec: Record, k: string, rest: seq<string>)
    requires k in rec && (rec[k] == JNum(0.0) || rec[k] == JBool(false))
    ensures KeyValue(Some(rec), [k] + rest) == rec[k]
  {
    assert FirstUsable(rec, [k] + rest, 0);
  }

  // ---------------------------------------------------------------------
  // Ordering by upload time

  predicate SortedByCreated(s: seq<StoredReceiptItem>) {
    forall i, j :: 0 <= i < j < |s| ==> s[i].createdAt <= s[j].createdAt
  }

  /** The items uploaded at time `t`, in their order in `s`. */
  function CreatedAt(s: seq<StoredReceiptItem>, t: int): (r: seq<StoredReceiptItem>)
    ensures |r| <= |s|
  {
    if s == [] then []
    else CreatedAt(s[..|s| - 1], t) + (if s[|s| - 1].createdAt == t then [s[|s| - 1]] else [])
  }

  /** Puts `x` after every item of `s` not uploaded later than it, scanning from the end. */
  function InsertByCreated(s: seq<StoredReceiptItem>, x: StoredReceiptItem): (r: seq<StoredReceiptItem>)
    ensures |r| == |s| + 1
  {
    if s == [] || s[|s| - 1].createdAt <= x.createdAt then s + [x]
    else InsertByCreated(s[..|s| - 1], x) + [s[|s| - 1]]
  }

  /**
    `[...items].sort((a, b) => a.createdAt - b.createdAt)`: a stable sort,
    written as insertion of each item in turn.
   */
  function SortByCreated(s: seq<StoredReceiptItem>): (r: seq<StoredReceiptItem>)
    ensures |r| == |s|
  {
    if s == [] then [] else InsertByCreated(SortByCreated(s[..|s| - 1]), s[|s| - 1])
  }

  lemma {:induction false} InsertKeepsItems(s: seq<StoredReceiptItem>, x: StoredReceiptItem)
    ensures multiset(InsertByCreated(s, x)) == multiset(s) + multiset{x}
  {
    if s != [] && s[|s| - 1].createdAt > x.createdAt {
      var init := s[..|s| - 1];
      InsertKeepsItems(init, x);
      assert s == init + [s[|s| - 1]];
    }
  }

  lemma {:induction false} InsertSorted(s: seq<StoredReceiptItem>, x: StoredReceiptItem)
    requires SortedByCreated(s)
    ensures SortedByCreated(InsertByCreated(s, x))
  {
    if s != [] && s[|s| - 1].createdAt > x.createdAt {
      var init := s[..|s| - 1];
      var last := s[|s| - 1];
      InsertSorted(init, x);
      InsertKeepsItems(init, x);
      var r := InsertByCreated(init, x);
      forall i | 0 <= i < |r| ensures r[i].createdAt <= last.createdAt {
        assert r[i] in multiset(r);
        if r[i] != x {
          assert r[i] in multiset(init);
          var k :| 0 <= k < |init| && init[k] == r[i];
        }
      }
    }
  }

  /** The sort orders the items by upload time and keeps every one of them. */
  lemma {:induction false} SortIsPermutation(s: seq<StoredReceiptItem>)
    ensures SortedByCreated(SortByCreated(s))
    ensures multiset(SortByCreated(s)) == multiset(s)
  {
    if s != [] {
      var init := s[..|s| - 1];
      SortIsPermutation(init);
      InsertSorted(SortByCreated(init), s[|s| - 1]);
      InsertKeepsItems(SortByCreated(init), s[|s| - 1]);
      assert s == init + [s[|s| - 1]];
    }
  }

  /** Items uploaded after `x` are all that the insertion passes over. */
  lemma {:induction false} InsertStable(s: seq<StoredReceiptItem>, x: StoredReceiptItem, t: int)
    ensures CreatedAt(InsertByCreated(s, x), t) == CreatedAt(s, t) + (if x.createdAt == t then [x] else [])
  {
    if s == [] || s[|s| - 1].createdAt <= x.createdAt {
      CreatedAtSnoc(s, x, t);
    } else {
      InsertStable(s[..|s| - 1], x, t);
      PassOver(s, x, t);
    }
  }

  /** Appending an item adds it to its own time's group. */
  lemma CreatedAtSnoc(s: seq<StoredReceiptItem>, x: StoredReceiptItem, t: int)
    ensures CreatedAt(s + [x], t) == CreatedAt(s, t) + (if x.createdAt == t then [x] else [])
  {
    assert (s + [x])[..|s|] == s;
  }

  /** The step of `InsertStable`: the insertion passes over the later last item. */
  lemma PassOver(s: seq<StoredReceiptItem>, x: StoredReceiptItem, t: int)
    requires s != [] && s[|s| - 1].createdAt > x.createdAt
    requires CreatedAt(InsertByCreated(s[..|s| - 1], x), t)
      == CreatedAt(s[..|s| - 1], t) + (if x.createdAt == t then [x] else [])
    ensures CreatedAt(InsertByCreated(s, x), t) == CreatedAt(s, t) + (if x.createdAt == t then [x] else [])
  {
    var init, last := s[..|s| - 1], s[|s| - 1];
    var r := InsertByCreated(init, x);
    assert InsertByCreated(s, x) == r + [last];
    CreatedAtSnoc(r, last, t);
    CreatedAtInit(s, t);
    if x.createdAt == t {
      assert last.createdAt != t;
    }
  }

  /** Stability: the items of any one upload time keep their order. */
  lemma {:induction false} SortIsStable(s: seq<StoredReceiptItem>, t: int)
    ensures CreatedAt(SortByCreated(s), t) == CreatedAt(s, t)
  {
    if s != [] {
      var init := s[..|s| - 1];
      SortIsStable(init, t);
      InsertStable(SortByCreated(init), s[|s| - 1], t);
    }
  }

  /** One step of the scan from the end: `x` goes before `p[j - 1]`. */
  lemma InsertStep(p: seq<StoredReceiptItem>, j: nat, x: StoredReceiptItem)
    requires 0 < j <= |p| && p[j - 1].createdAt > x.createdAt
    ensures InsertByCreated(p[..j], x) + p[j..] == InsertByCreated(p[..j - 1], x) + p[j - 1..]
  {
    assert p[..j][..j - 1] == p[..j - 1];
    assert p[..j][j - 1] == p[j - 1];
    assert [p[j - 1]] + p[j..] == p[j - 1..];
  }

  /** The scan stops where `x` belongs. */
  lemma InsertDone(p: seq<StoredReceiptItem>, j: nat, x: StoredReceiptItem)
    requires j <= |p| && (j == 0 || p[j - 1].createdAt <= x.createdAt)
    ensures InsertByCreated(p[..j], x) == p[..j] + [x]
  {
    if j > 0 {
      assert p[..j][j - 1] == p[j - 1];
    }
  }

  lemma {:induction false} CreatedAtMembers(s: seq<StoredReceiptItem>, t: int)
    ensures forall x :: x in CreatedAt(s, t) ==> x in s && x.createdAt == t
  {
    if s != [] {
      CreatedAtMembers(s[..|s| - 1], t);
      assert forall x :: x in s[..|s| - 1] ==> x in s;
    }
  }

  /** An ordered list that holds an item of time `t` ends with an item no earlier than `t`. */
  lemma LastNotEarlier(r: seq<StoredReceiptItem>, t: int)
    requires SortedByCreated(r) && CreatedAt(r, t) != []
    ensures r != [] && r[|r| - 1].createdAt >= t
  {
    var g := CreatedAt(r, t);
    CreatedAtMembers(r, t);
    assert g[|g| - 1] in g;
    var k :| 0 <= k < |r| && r[k] == g[|g| - 1];
  }

  /** Dropping the last item of a list drops it from its own time's group. */
  lemma CreatedAtInit(r: seq<StoredReceiptItem>, t: int)
    requires r != []
    ensures var init, last := r[..|r| - 1], r[|r| - 1];
      CreatedAt(r, t) == CreatedAt(init, t) + (if last.createdAt == t then [last] else [])
  {
  }

  /** Two ordered lists whose groups agree at the times of their last items end with the same item. */
  lemma LastsAgree(r1: seq<StoredReceiptItem>, r2: seq<StoredReceiptItem>)
    requires SortedByCreated(r1) && SortedByCreated(r2) && r1 != [] && r2 != []
    requires CreatedAt(r1, r1[|r1| - 1].createdAt) == CreatedAt(r2, r1[|r1| - 1].createdAt)
    requires CreatedAt(r1, r2[|r2| - 1].createdAt) == CreatedAt(r2, r2[|r2| - 1].createdAt)
    ensures r1[|r1| - 1] == r2[|r2| - 1]
  {
    var a, b := r1[|r1| - 1], r2[|r2| - 1];
    CreatedAtInit(r1, a.createdAt);
    CreatedAtInit(r2, b.createdAt);
    LastNotEarlier(r2, a.createdAt);
    LastNotEarlier(r1, b.createdAt);
    var t := a.createdAt;
    CreatedAtInit(r1, t);
    CreatedAtInit(r2, t);
    var c1, c2 := CreatedAt(r1[..|r1| - 1], t), CreatedAt(r2[..|r2| - 1], t);
    assert c1 + [a] == c2 + [b];
    assert a == (c1 + [a])[|c1|] && b == (c2 + [b])[|c2|];
  }

  /**
    Two lists, each ordered by upload time, with the same items of each
    upload time in the same order, are the same list.
   */
  lemma {:induction false} SortedGroupsDetermine(r1: seq<StoredReceiptItem>, r2: seq<StoredReceiptItem>)
    requires SortedByCreated(r1) && SortedByCreated(r2)
    requires forall t :: CreatedAt(r1, t) == CreatedAt(r2, t)
    ensures r1 == r2
    decreases |r1| + |r2|
  {
    if r1 == [] {
      NoGroupsEmpty(r2);
    } else if r2 == [] {
      NoGroupsEmpty(r1);
    } else {
      var i1, i2 := r1[..|r1| - 1], r2[..|r2| - 1];
      LastOfSameGroups(r1, r2);
      SortedInit(r1);
      SortedInit(r2);
      InitGroups(r1, r2, i1, i2);
      SortedGroupsDetermine(i1, i2);
      assert r1 == i1 + [r1[|r1| - 1]];
      assert r2 == i2 + [r2[|r2| - 1]];
    }
  }

  /** Two ordered lists with the same groups end with the same item. */
  lemma LastOfSameGroups(r1: seq<StoredReceiptItem>, r2: seq<StoredReceiptItem>)
    requires SortedByCreated(r1) && SortedByCreated(r2) && r1 != [] && r2 != []
    requires forall t :: CreatedAt(r1, t) == CreatedAt(r2, t)
    ensures r1[|r1| - 1] == r2[|r2| - 1]
  {
    LastsAgree(r1, r2);
  }

  lemma InitGroups(r1: seq<StoredReceiptItem>, r2: seq<StoredReceiptItem>, i1: seq<StoredReceiptItem>, i2: seq<StoredReceiptItem>)
    requires r1 != [] && r2 != [] && r1[|r1| - 1] == r2[|r2| - 1]
    requires i1 == r1[..|r1| - 1] && i2 == r2[..|r2| - 1]
    requires forall t :: CreatedAt(r1, t) == CreatedAt(r2, t)
    ensures forall t :: CreatedAt(i1, t) == CreatedAt(i2, t)
  {
    var a := r1[|r1| - 1];
    forall u ensures CreatedAt(i1, u) == CreatedAt(i2, u) {
      CreatedAtInit(r1, u);
      CreatedAtInit(r2, u);
      GroupsAgree(CreatedAt(i1, u), CreatedAt(i2, u), a, a.createdAt == u);
    }
  }

  lemma NoGroupsEmpty(r: seq<StoredReceiptItem>)
    requires forall t :: CreatedAt(r, t) == []
    ensures r == []
  {
    if r != [] {
      CreatedAtInit(r, r[|r| - 1].createdAt);
    }
  }

  lemma SortedInit(r: seq<StoredReceiptItem>)
    requires SortedByCreated(r) && r != []
    ensures SortedByCreated(r[..|r| - 1])
  {
  }

  lemma GroupsAgree(c1: seq<StoredReceiptItem>, c2: seq<StoredReceiptItem>, a: StoredReceiptItem, with: bool)
    requires c1 + (if with then [a] else []) == c2 + (if with then [a] else [])
    ensures c1 == c2
  {
    if with {
      assert (c1 + [a])[..|c1|] == c1;
      assert (c2 + [a])[..|c2|] == c2;
    } else {
      assert c1 + [] == c1 && c2 + [] == c2;
    }
  }

  /**
    Any stable sort by upload time gives the order `SortByCreated` gives, so
    taking insertion sort for the engine's sort loses nothing.
   */
  lemma StableSortUnique(s: seq<StoredReceiptItem>, r: seq<StoredReceiptItem>)
    requires SortedByCreated(r)
    requires forall t :: CreatedAt(r, t) == CreatedAt(s, t)
    ensures r == SortByCreated(s)
  {
    SortIsPermutation(s);
    forall t ensures CreatedAt(r, t) == CreatedAt(SortByCreated(s), t) {
      SortIsStable(s, t);
    }
    SortedGroupsDetermine(r, SortByCreated(s));
  }

  /**
    One pass of the insertion sort: `a[i]` moves down past every item of the
    sorted `a[..i]` uploaded later than it.
   */
  method InsertAt(a: array<StoredReceiptItem>, i: nat)
    requires i < a.Length
    modifies a
    ensures a[..i + 1] == InsertByCreated(old(a[..i]), old(a[i]))
    ensures a[i + 1..] == old(a[i + 1..])
  {
    ghost var prefix := a[..i];
    ghost var rest := a[i + 1..];
    var x := a[i];
    var j := i;
    assert a[..] == Placement(prefix, j, x, rest);
    assert prefix[..j] == prefix && prefix[j..] == [];
    while j > 0 && a[j - 1].createdAt > x.createdAt
      invariant 0 <= j <= i
      invariant a[..] == Placement(prefix, j, x, rest)
      invariant InsertByCreated(prefix, x) == InsertByCreated(prefix[..j], x) + prefix[j..]
    {
      InsertStep(prefix, j, x);
      SwapStep(prefix, j, x, rest);
      ghost var before := a[..];
      assert a[j - 1] == prefix[j - 1];
      a[j - 1], a[j] := x, a[j - 1];
      assert a[..] == before[j - 1 := x][j := prefix[j - 1]];
      j := j - 1;
    }
    InsertDone(prefix, j, x);
    Split(prefix, j, x, rest);
  }

  /** The finished pass: the first `i + 1` places hold the insertion, the rest is untouched. */
  lemma Split(prefix: seq<StoredReceiptItem>, j: nat, x: StoredReceiptItem, rest: seq<StoredReceiptItem>)
    requires j <= |prefix|
    ensures Placement(prefix, j, x, rest)[..|prefix| + 1] == prefix[..j] + [x] + prefix[j..]
    ensures Placement(prefix, j, x, rest)[|prefix| + 1..] == rest
  {
  }

  /** The contents during the pass: `x` sits at `j` between the two halves of `prefix`. */
  function Placement(prefix: seq<StoredReceiptItem>, j: nat, x: StoredReceiptItem, rest: seq<StoredReceiptItem>): seq<StoredReceiptItem>
    requires j <= |prefix|
  {
    prefix[..j] + [x] + prefix[j..] + rest
  }

  /** Swapping `x` with the item before it moves it one place down. */
  lemma SwapStep(prefix: seq<StoredReceiptItem>, j: nat, x: StoredReceiptItem, rest: seq<StoredReceiptItem>)
    requires 0 < j <= |prefix|
    ensures Placement(prefix, j, x, rest)[j - 1 := x][j := prefix[j - 1]] == Placement(prefix, j - 1, x, rest)
  {
    var s := Placement(prefix, j, x, rest);
    var t := Placement(prefix, j - 1, x, rest);
    assert |s| == |t|;
    forall k | 0 <= k < |s| ensures s[j - 1 := x][j := prefix[j - 1]][k] == t[k] {
    }
  }

  /** Sorting one more item inserts it into the sorted prefix. */
  lemma SortSnoc(items: seq<StoredReceiptItem>, i: nat)
    requires i < |items|
    ensures SortByCreated(items[..i + 1]) == InsertByCreated(SortByCreated(items[..i]), items[i])
  {
    assert items[..i + 1][..i] == items[..i];
  }

  /** The copy `buildRows` sorts: an insertion sort on an array, leaving `items` as it was. */
  method SortedCopy(items: seq<StoredReceiptItem>) returns (sorted: seq<StoredReceiptItem>)
    ensures sorted == SortByCreated(items)
  {
    var a := new StoredReceiptItem[|items|](i requires 0 <= i < |items| => items[i]);
    assert a[..] == items;
    var i := 0;
    while i < a.Length
      invariant 0 <= i <= a.Length
      invariant a[..i] == SortByCreated(items[..i])
      invariant a[i..] == items[i..]
    {
      assert a[i] == items[i];
      InsertAt(a, i);
      SortSnoc(items, i);
      assert a[i + 1..] == items[i..][1..];
      i := i + 1;
    }
    assert items[..a.Length] == items;
    sorted := a[..];
  }

  // ---------------------------------------------------------------------
  // Rows

  /** The columns of the export, in their order. */
  const Columns: seq<string> := [
    "NO", "FIS NO", "TARİH", "FİRMA ADI", "KDV %1", "KDV %10", "KDV %20",
    "TOPLAM TUTAR", "Vergi Dairesi", "Vergi No"]

  /** The keys each column is read from, in the order they are tried. */
  const DateKeys: seq<string> := ["TARİH", "TARIH", "transaction_date"]
  const SlipKeys: seq<string> := ["FİŞ NO", "FIS NO", "FİS NO"]
  const FirmKeys: seq<string> := ["FİRMA ADI", "FIRMA ADI", "FİRMA", "FIRMA"]
  const Vat1Keys: seq<string> := ["KDV %1", "KDV %01"]
  const Vat10Keys: seq<string> := ["KDV %10"]
  const Vat20Keys: seq<string> := ["KDV %20"]
  const TotalKeys: seq<string> := ["TOPLAM TUTAR", "TOPLAM", "TOTAL"]
  const OfficeKeys: seq<string> := ["Vergi Dairesi", "VERGİ DAİRESİ"]
  const TaxNoKeys: seq<string> := ["Vergi No", "VERGİ NO", "VKN", "TCKN"]

  /** The row of the item at position `idx` of the sorted list. */
  function RowOf(item: StoredReceiptItem, idx: nat): Record {
    var rec := AsRecord(item.receipt);
    RowLiteral(
      JNum((idx + 1) as real),
      KeyValue(rec, SlipKeys),
      JStr(ExportDates.NormalizeDate(KeyValue(rec, DateKeys))),
      KeyValue(rec, FirmKeys),
      KeyValue(rec, Vat1Keys),
      KeyValue(rec, Vat10Keys),
      KeyValue(rec, Vat20Keys),
      KeyValue(rec, TotalKeys),
      KeyValue(rec, OfficeKeys),
      KeyValue(rec, TaxNoKeys))
  }

  /** The object literal of a row, from its ten values in column order. */
  function RowLiteral(no: Json, slip: Json, date: Json, firm: Json, vat1: Json, vat10: Json, vat20: Json,
                      total: Json, office: Json, taxNo: Json): Record
  {
    map[
      "NO" := no,
      "FIS NO" := slip,
      "TARİH" := date,
      "FİRMA ADI" := firm,
      "KDV %1" := vat1,
      "KDV %10" := vat10,
      "KDV %20" := vat20,
      "TOPLAM TUTAR" := total,
      "Vergi Dairesi" := office,
      "Vergi No" := taxNo]
  }

  /** The literal's keys are exactly the columns. */
  lemma RowLiteralKeys(no: Json, slip: Json, date: Json, firm: Json, vat1: Json, vat10: Json, vat20: Json,
                       total: Json, office: Json, taxNo: Json)
    ensures forall k :: k in RowLiteral(no, slip, date, firm, vat1, vat10, vat20, total, office, taxNo) <==> k in Columns
  {
    var row := RowLiteral(no, slip, date, firm, vat1, vat10, vat20, total, office, taxNo);
    forall k | k in row ensures k in Columns {
    }
    forall k | k in Columns ensures k in row {
    }
  }

  /** `NO` holds the first value. */
  lemma RowLiteralNumber(no: Json, slip: Json, date: Json, firm: Json, vat1: Json, vat10: Json, vat20: Json,
                         total: Json, office: Json, taxNo: Json)
    ensures Lookup(RowLiteral(no, slip, date, firm, vat1, vat10, vat20, total, office, taxNo), "NO") == Some(no)
  {
  }

  /** A literal of values other than `null` holds every column with a value other than `null`. */
  lemma RowLiteralComplete(no: Json, slip: Json, date: Json, firm: Json, vat1: Json, vat10: Json, vat20: Json,
                           total: Json, office: Json, taxNo: Json)
    requires no != JNull && slip != JNull && date != JNull && firm != JNull && vat1 != JNull
    requires vat10 != JNull && vat20 != JNull && total != JNull && office != JNull && taxNo != JNull
    ensures var row := RowLiteral(no, slip, date, firm, vat1, vat10, vat20, total, office, taxNo);
      forall c :: 0 <= c < |Columns| ==> Columns[c] in row && row[Columns[c]] != JNull
  {
    var row := RowLiteral(no, slip, date, firm, vat1, vat10, vat20, total, office, taxNo);
    forall k | k in row ensures row[k] != JNull {
    }
    forall c | 0 <= c < |Columns| ensures Columns[c] in row {
      assert Columns[c] in Columns;
    }
  }

  /** `s.map((x, i) => f(x, i))`. */
  function MapIndexed<T, U>(s: seq<T>, f: (T, nat) -> U): (r: seq<U>)
    ensures |r| == |s|
    ensures forall i :: 0 <= i < |s| ==> r[i] == f(s[i], i)
  {
    seq(|s|, i requires 0 <= i < |s| => f(s[i], i))
  }

  /** Mapping one more element adds its image at the end. */
  lemma MapIndexedSnoc<T, U>(s: seq<T>, f: (T, nat) -> U, n: nat)
    requires n < |s|
    ensures MapIndexed(s[..n + 1], f) == MapIndexed(s[..n], f) + [f(s[n], n)]
  {
    var longer, shorter := MapIndexed(s[..n + 1], f), MapIndexed(s[..n], f) + [f(s[n], n)];
    forall i | 0 <= i < |longer| ensures longer[i] == shorter[i] {
      assert s[..n + 1][i] == s[i];
      if i < n {
        assert s[..n][i] == s[i];
      }
    }
  }

  /** The rows of a sorted list. */
  function Rows(sorted: seq<StoredReceiptItem>): seq<Record> {
    MapIndexed(sorted, RowOf)
  }

  /** The loop that gives every column a value: columns the row lacks get `""`. */
  method FillMissing(r: Record, cols: seq<string>) returns (filled: Record)
    ensures forall k :: k in filled <==> k in r || k in cols
    ensures forall k :: k in r ==> filled[k] == r[k]
    ensures forall k :: k in filled && k !in r ==> filled[k] == JStr("")
  {
    filled := r;
    for i := 0 to |cols|
      invariant forall k :: k in filled <==> k in r || k in cols[..i]
      invariant forall k :: k in r ==> filled[k] == r[k]
      invariant forall k :: k in filled && k !in r ==> filled[k] == JStr("")
    {
      assert cols[..i + 1] == cols[..i] + [cols[i]];
      if cols[i] !in filled {
        filled := filled[cols[i] := JStr("")];
      }
    }
    assert cols[..|cols|] == cols;
  }

  /** The callback of `sorted.map`: reads the receipt, builds the row and fills it. */
  method BuildRow(item: StoredReceiptItem, idx: nat) returns (row: Record)
    ensures row == RowOf(item, idx)
  {
    var rec := AsRecord(item.receipt);
    var date := GetKey(rec, DateKeys);
    var slip := GetKey(rec, SlipKeys);
    var firm := GetKey(rec, FirmKeys);
    var vat1 := GetKey(rec, Vat1Keys);
    var vat10 := GetKey(rec, Vat10Keys);
    var vat20 := GetKey(rec, Vat20Keys);
    var total := GetKey(rec, TotalKeys);
    var office := GetKey(rec, OfficeKeys);
    var taxNo := GetKey(rec, TaxNoKeys);
    var r := RowLiteral(
      JNum((idx + 1) as real), slip, JStr(ExportDates.NormalizeDate(date)), firm,
      vat1, vat10, vat20, total, office, taxNo);
    RowHasColumns(item, idx);
    row := FillMissing(r, Columns);
    assert row.Keys == r.Keys;
  }

  /** `buildRows`: the column list, and one row per item in upload order. */
  method BuildRows(items: seq<StoredReceiptItem>) returns (cols: seq<string>, rows: seq<Record>)
    ensures cols == Columns
    ensures rows == Rows(SortByCreated(items))
  {
    var sorted := SortedCopy(items);
    cols := Columns;
    rows := [];
    for idx := 0 to |sorted|
      invariant rows == Rows(sorted[..idx])
    {
      var row := BuildRow(sorted[idx], idx);
      MapIndexedSnoc(sorted, RowOf, idx);
      rows := rows + [row];
    }
    assert sorted[..|sorted|] == sorted;
  }

  /** The keys of every row are exactly the columns, and `NO` is its position plus one. */
  lemma RowHasColumns(item: StoredReceiptItem, idx: nat)
    ensures forall k :: k in RowOf(item, idx) <==> k in Columns
    ensures Lookup(RowOf(item, idx), "NO") == Some(JNum((idx + 1) as real))
  {
    var rec := AsRecord(item.receipt);
    var no, slip, date := JNum((idx + 1) as real), KeyValue(rec, SlipKeys), JStr(ExportDates.NormalizeDate(KeyValue(rec, DateKeys)));
    var firm, vat1, vat10 := KeyValue(rec, FirmKeys), KeyValue(rec, Vat1Keys), KeyValue(rec, Vat10Keys);
    var vat20, total, office, taxNo := KeyValue(rec, Vat20Keys), KeyValue(rec, TotalKeys), KeyValue(rec, OfficeKeys), KeyValue(rec, TaxNoKeys);
    RowLiteralKeys(no, slip, date, firm, vat1, vat10, vat20, total, office, taxNo);
    RowLiteralNumber(no, slip, date, firm, vat1, vat10, vat20, total, office, taxNo);
  }

  /**
    What `buildRows` returns: one row per item; row `i` is built from the
    `i`-th item in upload order, `NO` is `i + 1`, and every row has exactly
    the ten columns.
   */
  lemma RowsOfItems(items: seq<StoredReceiptItem>)
    ensures var sorted := SortByCreated(items);
      var rows := Rows(sorted);
      && |rows| == |items|
      && multiset(sorted) == multiset(items)
      && (forall i, j :: 0 <= i < j < |rows| ==> sorted[i].createdAt <= sorted[j].createdAt)
      && (forall i :: 0 <= i < |rows| ==> rows[i] == RowOf(sorted[i], i))
      && (forall i, k :: 0 <= i < |rows| ==> (k in rows[i] <==> k in Columns))
      && (forall i :: 0 <= i < |rows| ==> Lookup(rows[i], "NO") == Some(JNum((i + 1) as real)))
  {
    SortIsPermutation(items);
    RowsShape(SortByCreated(items));
  }

  /** The rows of any list: exactly the ten columns each, numbered from 1. */
  lemma RowsShape(sorted: seq<StoredReceiptItem>)
    ensures forall i, k :: 0 <= i < |sorted| ==> (k in Rows(sorted)[i] <==> k in Columns)
    ensures forall i :: 0 <= i < |sorted| ==> Lookup(Rows(sorted)[i], "NO") == Some(JNum((i + 1) as real))
  {
    forall i | 0 <= i < |sorted|
      ensures (forall k :: k in Rows(sorted)[i] <==> k in Columns)
      ensures Lookup(Rows(sorted)[i], "NO") == Some(JNum((i + 1) as real))
    {
      RowHasColumns(sorted[i], i);
    }
  }

  /** An item whose receipt is missing, an array or not an object gives `""` in every column but `NO`. */
  lemma NonObjectReceipt(item: StoredReceiptItem, idx: nat)
    requires AsRecord(item.receipt).None?
    ensures forall c :: c in Columns && c != "NO" ==> Lookup(RowOf(item, idx), c) == Some(JStr(""))
  {
    assert ExportDates.NormalizeDate(JStr("")) == "" by {
      TrimEmptyIff("");
    }
  }

  // ---------------------------------------------------------------------
  // The CSV text

  /** The texts of a row's cells, in column order, before escaping. */
  function CellTexts(row: Record, cols: seq<string>, stringify: Json -> string): seq<string> {
    seq(|cols|, c requires 0 <= c < |cols| => CellText(Lookup(row, cols[c]), stringify))
  }

  /** One line of the CSV: the escaped cells of a row, in column order, joined by `,`. */
  function CsvLine(row: Record, cols: seq<string>, stringify: Json -> string): string {
    Join(seq(|cols|, c requires 0 <= c < |cols| => CsvEscape(Lookup(row, cols[c]), stringify)), ",")
  }

  /** The text `downloadCsv` writes: a byte order mark, the header, then one line per row. */
  function CsvText(cols: seq<string>, rows: seq<Record>, stringify: Json -> string): string {
    var lines := seq(|rows|, i requires 0 <= i < |rows| => CsvLine(rows[i], cols, stringify));
    "\U{FEFF}" + Join([Join(cols, ",")] + lines, "\n")
  }

  /**
    The CSV reads back, after its byte order mark, as the header followed
    by the cell texts of every row, provided the header has at least two
    columns and none of them needs quoting (the header is not escaped).
   */
  lemma {:induction false} CsvReadsBack(cols: seq<string>, rows: seq<Record>, stringify: Json -> string)
    requires |cols| >= 2 && forall c :: c in cols ==> !NeedsQuoting(c)
    ensures CsvText(cols, rows, stringify)[0] == '\U{FEFF}'
    ensures ReadRecords(CsvText(cols, rows, stringify)[1..])
         == Some([cols] + seq(|rows|, i requires 0 <= i < |rows| => CellTexts(rows[i], cols, stringify)))
  {
    var cells := seq(|rows|, i requires 0 <= i < |rows| => CellTexts(rows[i], cols, stringify));
    var records := [cols] + cells;
    var lines := seq(|rows|, i requires 0 <= i < |rows| => CsvLine(rows[i], cols, stringify));
    var escaped := EscapedLines(records);
    HeaderIsEscaped(cols);
    forall i | 0 <= i < |rows| ensures escaped[i + 1] == lines[i] {
      LineIsEscaped(rows[i], cols, stringify);
    }
    assert escaped == [Join(cols, ",")] + lines;
    ReadRecordsEscaped(records);
    var t := CsvText(cols, rows, stringify);
    assert t == "\U{FEFF}" + Join(escaped, "\n");
    assert t[1..] == Join(escaped, "\n");
  }

  lemma HeaderIsEscaped(cols: seq<string>)
    requires forall c :: c in cols ==> !NeedsQuoting(c)
    ensures EscapedLine(cols) == Join(cols, ",")
  {
    assert seq(|cols|, i requires 0 <= i < |cols| => Escape(cols[i])) == cols by {
      forall i | 0 <= i < |cols| ensures Escape(cols[i]) == cols[i] {
        assert cols[i] in cols;
      }
    }
  }

  lemma LineIsEscaped(row: Record, cols: seq<string>, stringify: Json -> string)
    ensures EscapedLine(CellTexts(row, cols, stringify)) == CsvLine(row, cols, stringify)
  {
    var texts := CellTexts(row, cols, stringify);
    assert seq(|texts|, k requires 0 <= k < |texts| => Escape(texts[k]))
        == seq(|cols|, k requires 0 <= k < |cols| => CsvEscape(Lookup(row, cols[k]), stringify));
  }

  /** No column name holds a character that would need quoting. */
  lemma ColumnsPlain()
    ensures forall c :: c in Columns ==> !NeedsQuoting(c)
  {
    forall c | c in Columns ensures !NeedsQuoting(c) {
      forall i | 0 <= i < |c| ensures !IsSpecial(c[i]) {
      }
    }
  }

  /** The CSV of a list of items reads back as the header and, row by row in upload order, the cell texts. */
  lemma CsvOfItems(items: seq<StoredReceiptItem>, stringify: Json -> string)
    ensures var rows := Rows(SortByCreated(items));
      ReadRecords(CsvText(Columns, rows, stringify)[1..])
        == Some([Columns] + seq(|rows|, i requires 0 <= i < |rows| => CellTexts(rows[i], Columns, stringify)))
  {
    ColumnsPlain();
    CsvReadsBack(Columns, Rows(SortByCreated(items)), stringify);
  }

  // ---------------------------------------------------------------------
  // The sheet

  /** `v ?? ""`. */
  function OrEmpty(v: Option<Json>): Json {
    if v.None? || v == Some(JNull) then JStr("") else v.value
  }

  /** The array of arrays `downloadExcel` hands to the sheet writer: the header, then each row in column order. */
  function SheetRows(cols: seq<string>, rows: seq<Record>): seq<seq<Json>> {
    [seq(|cols|, c requires 0 <= c < |cols| => JStr(cols[c]))]
      + seq(|rows|, i requires 0 <= i < |rows| => seq(|cols|, c requires 0 <= c < |cols| => OrEmpty(Lookup(rows[i], cols[c]))))
  }

  /**
    The sheet holds each row's own values: no row has a `null` or missing
    column, so the `?? ""` never fires; and each cell of the sheet has the
    text its CSV cell has.
   */
  lemma SheetMatchesRows(items: seq<StoredReceiptItem>, stringify: Json -> string)
    ensures var rows := Rows(SortByCreated(items));
      var sheet := SheetRows(Columns, rows);
      && |sheet| == |items| + 1
      && (forall c :: 0 <= c < |Columns| ==> sheet[0][c] == JStr(Columns[c]))
      && (forall i, c :: 0 <= i < |rows| && 0 <= c < |Columns| ==> Lookup(rows[i], Columns[c]) == Some(sheet[i + 1][c]))
      && (forall i, c :: 0 <= i < |rows| && 0 <= c < |Columns| ==>
            CellText(Some(sheet[i + 1][c]), stringify) == CellTexts(rows[i], Columns, stringify)[c])
  {
    var rows := Rows(SortByCreated(items));
    RowsComplete(SortByCreated(items));
    SheetOfCompleteRows(Columns, rows, stringify);
  }

  /** Every row holds every column, and none of them is `null`. */
  lemma RowsComplete(sorted: seq<StoredReceiptItem>)
    ensures forall i, c :: 0 <= i < |sorted| && 0 <= c < |Columns| ==>
      Columns[c] in Rows(sorted)[i] && Rows(sorted)[i][Columns[c]] != JNull
  {
    forall i | 0 <= i < |sorted|
      ensures forall c :: 0 <= c < |Columns| ==> Columns[c] in Rows(sorted)[i] && Rows(sorted)[i][Columns[c]] != JNull
    {
      RowComplete(sorted[i], i);
    }
  }

  /** A row holds every column, and none of them is `null`. */
  lemma RowComplete(item: StoredReceiptItem, idx: nat)
    ensures forall c :: 0 <= c < |Columns| ==> Columns[c] in RowOf(item, idx) && RowOf(item, idx)[Columns[c]] != JNull
  {
    var rec := AsRecord(item.receipt);
    RowLiteralComplete(
      JNum((idx + 1) as real),
      KeyValue(rec, SlipKeys),
      JStr(ExportDates.NormalizeDate(KeyValue(rec, DateKeys))),
      KeyValue(rec, FirmKeys),
      KeyValue(rec, Vat1Keys),
      KeyValue(rec, Vat10Keys),
      KeyValue(rec, Vat20Keys),
      KeyValue(rec, TotalKeys),
      KeyValue(rec, OfficeKeys),
      KeyValue(rec, TaxNoKeys));
  }

  /** The sheet of rows that hold every column with a value other than `null`. */
  lemma SheetOfCompleteRows(cols: seq<string>, rows: seq<Record>, stringify: Json -> string)
    requires forall i, c :: 0 <= i < |rows| && 0 <= c < |cols| ==> cols[c] in rows[i] && rows[i][cols[c]] != JNull
    ensures var sheet := SheetRows(cols, rows);
      && |sheet| == |rows| + 1
      && (forall c :: 0 <= c < |cols| ==> sheet[0][c] == JStr(cols[c]))
      && (forall i, c :: 0 <= i < |rows| && 0 <= c < |cols| ==> Lookup(rows[i], cols[c]) == Some(sheet[i + 1][c]))
      && (forall i, c :: 0 <= i < |rows| && 0 <= c < |cols| ==>
            CellText(Some(sheet[i + 1][c]), stringify) == CellTexts(rows[i], cols, stringify)[c])
  {
  }

  // ---------------------------------------------------------------------
  // File names

  /** `downloadCsv`'s name: `.csv` is added unless the name already ends with it, letter case included. */
  function CsvFileName(name: string): string {
    if EndsWith(name, ".csv") then name else name + ".csv"
  }

  /** `downloadExcel`'s name: `.xlsx` is added unless the lower-cased name already ends with it. */
  function XlsxFileName(name: string): string {
    if EndsWith(Lower(name), ".xlsx") then name else name + ".xlsx"
  }

  lemma CsvFileNameRule(name: string)
    ensures StartsWith(CsvFileName(name), name)
    ensures EndsWith(CsvFileName(name), ".csv")
    ensures CsvFileName(name) == name <==> EndsWith(name, ".csv")
    ensures CsvFileName(CsvFileName(name)) == CsvFileName(name)
  {
    var r := name + ".csv";
    assert r[..|name|] == name;
    assert r[|r| - 4..] == ".csv";
  }

  lemma XlsxFileNameRule(name: string)
    ensures StartsWith(XlsxFileName(name), name)
    ensures EndsWith(Lower(XlsxFileName(name)), ".xlsx")
    ensures XlsxFileName(name) == name <==> EndsWith(Lower(name), ".xlsx")
    ensures XlsxFileName(XlsxFileName(name)) == XlsxFileName(name)
  {
    var r := name + ".xlsx";
    assert r[..|name|] == name;
    LowerAppend(name, ".xlsx");
    assert Lower(".xlsx") == ".xlsx";
    assert Lower(r)[|r| - 5..] == ".xlsx";
  }

  /** The two rules differ on an upper-case suffix. */
  lemma SuffixLetterCase()
    ensures CsvFileName("a.CSV") == "a.CSV.csv"
    ensures XlsxFileName("a.XLSX") == "a.XLSX"
  {
    assert "a.CSV"[1..] != ".csv" by {
      assert "a.CSV"[1..][1] != ".csv"[1];
    }
    assert Lower("a.XLSX") == "a.xlsx";
    assert "a.xlsx"[1..] == ".xlsx";
  }
}
