/**
  The client-side helpers of the dashboard (src/app/page.tsx): the dotted
  path lookup `pick` used to show a receipt's fields, the line count, and
  the changes made to the list of items on upload, on completion, on
  delete, and when the exportable items are chosen.
 */
module Page {
  import opened Wrappers
  import opened JsonValue
  import opened Text
  import opened Db

  // ---------------------------------------------------------------------
  // pick

  /**
    `asRecord` of the page: any non-null object, arrays included (unlike the
    exporter's). Other values stop a lookup.
   */
  predicate IsRecord(v: Option<Json>) {
    v.Some? && (v.value.JObj? || v.value.JArr?)
  }

  /** The array index a property name denotes: decimal digits in canonical form. */
  function ArrayIndex(p: string): (r: Option<nat>)
    ensures r.Some? ==> AllDigits(p) && p != []
  {
    if p != [] && AllDigits(p) && (p[0] != '0' || |p| == 1) then Some(DigitsValue(p)) else None
  }

  /** `rec[p]` on an object or an array; `None` stands for `undefined`. */
  function Member(rec: Json, p: string): Option<Json>
    requires rec.JObj? || rec.JArr?
  {
    if rec.JObj? then
      if p in rec.fields then Some(rec.fields[p]) else None
    else if p == "length" then Some(JNum(|rec.elems| as real))
    else match ArrayIndex(p)
      case Some(i) => if i < |rec.elems| then Some(rec.elems[i]) else None
      case None => None
  }

  /** The value at the end of a path of property names: `undefined` as soon as a step meets a non-record. */
  function PickPath(v: Option<Json>, parts: seq<string>): Option<Json>
    decreases parts
  {
    if parts == [] then v
    else if !IsRecord(v) then None
    else PickPath(Member(v.value, parts[0]), parts[1..])
  }

  /** `path.split(".")`: the pieces between the dots, an empty path being one empty piece. */
  function SplitDots(s: string): (parts: seq<string>)
    ensures |parts| >= 1
    ensures Join(parts, ".") == s
    ensures forall i :: 0 <= i < |parts| ==> '.' !in parts[i]
  {
    var k := IndexOf(s, '.');
    if k == -1 then [s]
    else
      var rest := SplitDots(s[k + 1..]);
      SplitStep(s, k, rest);
      [s[..k]] + rest
  }

  /** Cutting at the first dot: the head has no dot, and the head, a dot and the joined rest make the text. */
  lemma SplitStep(s: string, k: int, rest: seq<string>)
    requires 0 <= k < |s| && s[k] == '.' && '.' !in s[..k]
    requires rest != [] && Join(rest, ".") == s[k + 1..]
    requires forall i :: 0 <= i < |rest| ==> '.' !in rest[i]
    ensures Join([s[..k]] + rest, ".") == s
    ensures forall i :: 0 <= i < |[s[..k]] + rest| ==> '.' !in ([s[..k]] + rest)[i]
  {
    var parts := [s[..k]] + rest;
    assert parts[1..] == rest;
    assert s == s[..k] + "." + s[k + 1..];
    forall i | 0 <= i < |parts| ensures '.' !in parts[i] {
      if i > 0 {
        assert parts[i] == rest[i - 1];
      }
    }
  }

  /** `pick(obj, path)`: the loop that walks the path one piece at a time. */
  method Pick(obj: Option<Json>, path: string) returns (r: Option<Json>)
    ensures r == PickPath(obj, SplitDots(path))
  {
    var parts := SplitDots(path);
    var cur := obj;
    for i := 0 to |parts|
      invariant PickPath(cur, parts[i..]) == PickPath(obj, parts)
    {
      assert parts[i..][1..] == parts[i + 1..];
      if !IsRecord(cur) {
        return None;
      }
      cur := Member(cur.value, parts[i]);
    }
    assert parts[|parts|..] == [];
    return cur;
  }

  lemma {:induction false} JoinAppend(a: seq<string>, b: seq<string>, sep: string)
    requires a != [] && b != []
    ensures Join(a + b, sep) == Join(a, sep) + sep + Join(b, sep)
  {
    if |a| == 1 {
      assert (a + b)[1..] == b;
    } else {
      assert (a + b)[1..] == a[1..] + b;
      JoinAppend(a[1..], b, sep);
    }
  }

  /** Splitting undoes joining by dots, for pieces without a dot. */
  lemma {:induction false} SplitJoin(parts: seq<string>)
    requires parts != [] && forall i :: 0 <= i < |parts| ==> '.' !in parts[i]
    ensures SplitDots(Join(parts, ".")) == parts
  {
    var s := Join(parts, ".");
    if |parts| == 1 {
      assert '.' !in s;
    } else {
      var rest := Join(parts[1..], ".");
      assert s == parts[0] + "." + rest;
      var k := IndexOf(s, '.');
      assert s[|parts[0]|] == '.';
      assert forall j :: 0 <= j < |parts[0]| ==> s[j] == parts[0][j];
      assert k == |parts[0]|;
      assert s[..k] == parts[0];
      assert s[k + 1..] == rest;
      SplitJoin(parts[1..]);
      assert [parts[0]] + parts[1..] == parts;
    }
  }

  lemma SplitConcat(p: string, q: string)
    ensures SplitDots(p + "." + q) == SplitDots(p) + SplitDots(q)
  {
    var ps, qs := SplitDots(p), SplitDots(q);
    JoinAppend(ps, qs, ".");
    SplitJoin(ps + qs);
  }

  /** A lookup along `p + q` is the lookup along `q` from where `p` leads. */
  lemma {:induction false} PickPathAppend(v: Option<Json>, p: seq<string>, q: seq<string>)
    ensures PickPath(v, p + q) == PickPath(PickPath(v, p), q)
    decreases p
  {
    if p == [] {
      assert p + q == q;
    } else if !IsRecord(v) {
      if q != [] {
        assert PickPath(None, q) == None;
      }
    } else {
      assert (p + q)[1..] == p[1..] + q;
      PickPathAppend(Member(v.value, p[0]), p[1..], q);
    }
  }

  /** `pick(o, p + "." + q)` is `pick(pick(o, p), q)`. */
  lemma PickCompose(o: Option<Json>, p: string, q: string)
    ensures PickPath(o, SplitDots(p + "." + q)) == PickPath(PickPath(o, SplitDots(p)), SplitDots(q))
  {
    SplitConcat(p, q);
    PickPathAppend(o, SplitDots(p), SplitDots(q));
  }

  /** A lookup stops, with `undefined`, at anything that is not an object or an array. */
  lemma PickStops(v: Option<Json>, parts: seq<string>)
    requires !IsRecord(v) && parts != []
    ensures PickPath(v, parts) == None
  {
  }

  /** A decimal piece indexes into an array. */
  lemma PickArrayIndex(es: seq<Json>, i: nat)
    requires i < |es|
    ensures PickPath(Some(JArr(es)), [NatToString(i)]) == Some(es[i])
  {
    NatToStringRoundTrip(i);
    assert ArrayIndex(NatToString(i)) == Some(i);
  }

  // ---------------------------------------------------------------------
  // lineCount

  /** The number of line items shown on a card: the length of `line_items` when it is an array, else 0. */
  function LineCount(receipt: Option<Json>): nat {
    var v := PickPath(receipt, SplitDots("line_items"));
    if v.Some? && v.value.JArr? then |v.value.elems| else 0
  }

  lemma LineCountCases(receipt: Option<Json>)
    ensures receipt.Some? && receipt.value.JObj? && "line_items" in receipt.value.fields
              && receipt.value.fields["line_items"].JArr?
            ==> LineCount(receipt) == |receipt.value.fields["line_items"].elems|
    ensures (receipt.None? || !receipt.value.JObj? || "line_items" !in receipt.value.fields
              || !receipt.value.fields["line_items"].JArr?)
            ==> LineCount(receipt) == 0
  {
    LineItemsPath();
    PickOne(receipt, "line_items");
    if receipt.Some? && receipt.value.JArr? {
      NoLineItemsInArray(receipt.value.elems);
    }
  }

  /** A path of one piece is one member lookup. */
  lemma PickOne(v: Option<Json>, p: string)
    ensures PickPath(v, [p]) == if IsRecord(v) then Member(v.value, p) else None
  {
    if IsRecord(v) {
      assert [p][1..] == [];
    }
  }

  /** An array has no member `line_items`. */
  lemma NoLineItemsInArray(es: seq<Json>)
    ensures Member(JArr(es), "line_items") == None
  {
    assert ArrayIndex("line_items").None? by {
      assert !IsDigit("line_items"[0]);
    }
    assert "line_items" != "length" by {
      assert "line_items"[1] != "length"[1];
    }
  }

  lemma LineItemsPath()
    ensures SplitDots("line_items") == ["line_items"]
  {
    assert forall i :: 0 <= i < |"line_items"| ==> "line_items"[i] != '.';
    SplitNoDot("line_items");
  }

  /** A path without a dot is a single piece. */
  lemma SplitNoDot(s: string)
    requires forall i :: 0 <= i < |s| ==> s[i] != '.'
    ensures SplitDots(s) == [s]
  {
  }

  // ---------------------------------------------------------------------
  // The list of items

  /** `items.filter(keep)`. */
  function Filter(items: seq<StoredReceiptItem>, keep: StoredReceiptItem -> bool): (r: seq<StoredReceiptItem>)
    ensures |r| <= |items|
  {
    if items == [] then []
    else Filter(items[..|items| - 1], keep) + (if keep(items[|items| - 1]) then [items[|items| - 1]] else [])
  }

  /** What a filter keeps: exactly the items it accepts, each as often as before. */
  lemma {:induction false} FilterKeeps(items: seq<StoredReceiptItem>, keep: StoredReceiptItem -> bool)
    ensures forall x :: x in Filter(items, keep) ==> keep(x)
    ensures forall x :: keep(x) ==> multiset(Filter(items, keep))[x] == multiset(items)[x]
  {
    if items != [] {
      var init := items[..|items| - 1];
      FilterKeeps(init, keep);
      assert items == init + [items[|items| - 1]];
    }
  }

  /** A filter keeps the order: filtering a concatenation filters each part. */
  lemma {:induction false} FilterAppend(a: seq<StoredReceiptItem>, b: seq<StoredReceiptItem>, keep: StoredReceiptItem -> bool)
    ensures Filter(a + b, keep) == Filter(a, keep) + Filter(b, keep)
    decreases |b|
  {
    if b == [] {
      assert a + b == a;
    } else {
      var b' := b[..|b| - 1];
      assert (a + b)[..|a + b| - 1] == a + b';
      assert (a + b)[|a + b| - 1] == b[|b| - 1];
      FilterAppend(a, b', keep);
    }
  }

  /** `exportableItems`: the items whose transcription is done, in list order. */
  function Exportable(items: seq<StoredReceiptItem>): seq<StoredReceiptItem> {
    Filter(items, (x: StoredReceiptItem) => x.status == Done)
  }

  lemma ExportableItems(items: seq<StoredReceiptItem>)
    ensures forall x :: x in Exportable(items) ==> x.status == Done
    ensures forall x: StoredReceiptItem :: x.status == Done ==> multiset(Exportable(items))[x] == multiset(items)[x]
  {
    FilterKeeps(items, (x: StoredReceiptItem) => x.status == Done);
  }

  /** The item an upload adds: processing, with no receipt and no error yet. */
  function NewItem(id: string, createdAt: int, fileName: string, fileType: string, size: int): StoredReceiptItem {
    StoredReceiptItem(id, createdAt, fileName, if fileType == "" then "image/*" else fileType, size, Processing, None, None)
  }

  /** The optimistic update of an upload: the new item goes first. */
  function Upload(items: seq<StoredReceiptItem>, base: StoredReceiptItem): seq<StoredReceiptItem> {
    [base] + items
  }

  lemma UploadPrepends(items: seq<StoredReceiptItem>, id: string, createdAt: int, fileName: string, fileType: string, size: int)
    ensures var r := Upload(items, NewItem(id, createdAt, fileName, fileType, size));
      && |r| == |items| + 1
      && r[0].id == id && r[0].status == Processing && r[0].receipt.None? && r[0].error.None?
      && r[0].mimeType == (if fileType == "" then "image/*" else fileType)
      && r[1..] == items
  {
  }

  /**
    `{ ...p, ...updated }`: every field `updated` has replaces the item's;
    an optional field `updated` lacks keeps the item's value.
   */
  function Merge(p: StoredReceiptItem, updated: StoredReceiptItem): StoredReceiptItem {
    updated.(
      error := if updated.error.Some? then updated.error else p.error,
      receipt := if updated.receipt.Some? then updated.receipt else p.receipt)
  }

  /** The update on success: the upload's item, done, with the validated receipt. */
  function DoneUpdate(base: StoredReceiptItem, receipt: Json): StoredReceiptItem {
    base.(status := Done, receipt := Some(receipt))
  }

  /** The update on failure: the upload's item, failed, with the message. */
  function ErrorUpdate(base: StoredReceiptItem, message: string): StoredReceiptItem {
    base.(status := Error, error := Some(message))
  }

  /** `prev.map((p) => (p.id === id ? { ...p, ...updated } : p))`. */
  function Complete(items: seq<StoredReceiptItem>, id: string, updated: StoredReceiptItem): seq<StoredReceiptItem> {
    seq(|items|, i requires 0 <= i < |items| => if items[i].id == id then Merge(items[i], updated) else items[i])
  }

  /**
    Completion touches only the items with the id: the list keeps its
    length and order, the others are unchanged, and a matching item takes
    the status and the receipt or message of the update.
   */
  lemma CompleteOnlyMatching(items: seq<StoredReceiptItem>, id: string, base: StoredReceiptItem, receipt: Json, message: string)
    requires base.receipt.None? && base.error.None?
    ensures var done := Complete(items, id, DoneUpdate(base, receipt));
      && |done| == |items|
      && (forall i :: 0 <= i < |items| && items[i].id != id ==> done[i] == items[i])
      && (forall i :: 0 <= i < |items| && items[i].id == id ==>
            done[i].status == Done && done[i].receipt == Some(receipt) && done[i].error == items[i].error)
    ensures var failed := Complete(items, id, ErrorUpdate(base, message));
      && |failed| == |items|
      && (forall i :: 0 <= i < |items| && items[i].id != id ==> failed[i] == items[i])
      && (forall i :: 0 <= i < |items| && items[i].id == id ==>
            failed[i].status == Error && failed[i].error == Some(message) && failed[i].receipt == items[i].receipt)
  {
  }

  /** `prev.filter((p) => p.id !== id)`. */
  function Delete(items: seq<StoredReceiptItem>, id: string): seq<StoredReceiptItem> {
    Filter(items, (x: StoredReceiptItem) => x.id != id)
  }

  lemma DeleteRemoves(items: seq<StoredReceiptItem>, id: string)
    ensures forall x :: x in Delete(items, id) ==> x.id != id
    ensures forall x: StoredReceiptItem :: x.id != id ==> multiset(Delete(items, id))[x] == multiset(items)[x]
  {
    FilterKeeps(items, (x: StoredReceiptItem) => x.id != id);
  }
}
