/**
 * The print history: an ordered list of entries kept in one storage
 * document, the per-order tally behind the history and duplicate screens,
 * and the read-modify-append-write-all update.
 */
module History {
  import opened Wrappers

  /** One successful print job, in the order it was appended. */
  datatype Entry = Entry(orderId: string, customer: string, boxQty: int, timestamp: string)

  /** `any(item.get("order_id") == order_id for item in h)`. */
  function Printed(h: seq<Entry>, orderId: string): (b: bool)
    ensures b <==> exists i :: 0 <= i < |h| && h[i].orderId == orderId
  {
    |h| > 0 && (h[0].orderId == orderId || Printed(h[1..], orderId))
  }

  /** How many entries carry `orderId`. */
  function Count(h: seq<Entry>, orderId: string): (n: nat)
    ensures n <= |h|
  {
    if h == [] then 0
    else Count(h[..|h| - 1], orderId) + (if h[|h| - 1].orderId == orderId then 1 else 0)
  }

  /** Appending one entry adds one to its own order id's count and leaves
      every other count alone. */
  lemma CountAppend(h: seq<Entry>, e: Entry, orderId: string)
    ensures Count(h + [e], orderId) == Count(h, orderId) + (if e.orderId == orderId then 1 else 0)
  {
    assert (h + [e])[..|h|] == h;
  }

  /** An order has been printed exactly when its count is positive. */
  lemma {:induction false} PrintedIffCounted(h: seq<Entry>, orderId: string)
    ensures Printed(h, orderId) <==> Count(h, orderId) > 0
  {
    if h != [] {
      var p := h[..|h| - 1];
      PrintedIffCounted(p, orderId);
      if Printed(p, orderId) {
        var i :| 0 <= i < |p| && p[i].orderId == orderId;
        assert h[i] == p[i];
      }
      if Printed(h, orderId) && h[|h| - 1].orderId != orderId {
        var i :| 0 <= i < |h| && h[i].orderId == orderId;
        assert p[i] == h[i];
      }
    }
  }

  /** The order ids of `h`, each once, in order of first appearance: the key
      order of the Python dict the tally builds. */
  function Ids(h: seq<Entry>): (ks: seq<string>)
    ensures forall id :: id in ks <==> Printed(h, id)
    ensures forall i, j :: 0 <= i < j < |ks| ==> ks[i] != ks[j]
  {
    if h == [] then []
    else
      var p := h[..|h| - 1];
      var last := h[|h| - 1].orderId;
      assert forall id :: Printed(h, id) <==> Printed(p, id) || id == last by {
        forall id ensures Printed(h, id) <==> Printed(p, id) || id == last {
          if Printed(p, id) {
            var i :| 0 <= i < |p| && p[i].orderId == id;
            assert h[i] == p[i];
          }
          if Printed(h, id) && id != last {
            var i :| 0 <= i < |h| && h[i].orderId == id;
            assert p[i] == h[i];
          }
        }
      }
      var ks := Ids(p);
      if last in ks then ks else ks + [last]
  }

  /** Appending an entry adds its order id at the end of the ids, unless
      the id is already there. */
  lemma IdsAppend(h: seq<Entry>, e: Entry)
    ensures Ids(h + [e]) == if e.orderId in Ids(h) then Ids(h) else Ids(h) + [e.orderId]
  {
    assert (h + [e])[..|h|] == h;
  }

  /** The duplicate view of the ids in `ks`: each id of `ks` printed more
      than once in `h`, with its count, in the order of `ks`. */
  function Repeated(ks: seq<string>, h: seq<Entry>): seq<(string, nat)> {
    if ks == [] then []
    else
      var rest := Repeated(ks[..|ks| - 1], h);
      var k := ks[|ks| - 1];
      if Count(h, k) > 1 then rest + [(k, Count(h, k))] else rest
  }

  /** What the duplicates screen lists for history `h`: orders printed
      more than once, each once and with its number of prints. */
  function Duplicates(h: seq<Entry>): (r: seq<(string, nat)>)
    ensures forall i :: 0 <= i < |r| ==> r[i].1 > 1 && Count(h, r[i].0) == r[i].1
    ensures forall i, j :: 0 <= i < j < |r| ==> r[i].0 != r[j].0
  {
    RepeatedCounts(Ids(h), h);
    RepeatedIdsDistinct(Ids(h), h);
    Repeated(Ids(h), h)
  }

  lemma {:induction false} RepeatedCounts(ks: seq<string>, h: seq<Entry>)
    ensures forall i :: 0 <= i < |Repeated(ks, h)| ==>
              Repeated(ks, h)[i].1 > 1 && Count(h, Repeated(ks, h)[i].0) == Repeated(ks, h)[i].1
  {
    if ks != [] {
      RepeatedCounts(ks[..|ks| - 1], h);
    }
  }

  lemma {:induction false} RepeatedMembers(ks: seq<string>, h: seq<Entry>, id: string, n: nat)
    ensures (id, n) in Repeated(ks, h) <==> id in ks && Count(h, id) == n && n > 1
  {
    if ks != [] {
      RepeatedMembers(ks[..|ks| - 1], h, id, n);
      assert ks == ks[..|ks| - 1] + [ks[|ks| - 1]];
    }
  }

  lemma {:induction false} RepeatedIdsDistinct(ks: seq<string>, h: seq<Entry>)
    requires forall i, j :: 0 <= i < j < |ks| ==> ks[i] != ks[j]
    ensures forall i, j :: 0 <= i < j < |Repeated(ks, h)| ==> Repeated(ks, h)[i].0 != Repeated(ks, h)[j].0
    ensures forall i :: 0 <= i < |Repeated(ks, h)| ==> Repeated(ks, h)[i].0 in ks
  {
    if ks != [] {
      var p := ks[..|ks| - 1];
      RepeatedIdsDistinct(p, h);
      var rest := Repeated(p, h);
      assert forall i :: 0 <= i < |rest| ==> rest[i].0 in p;
      assert ks[|ks| - 1] !in p;
    }
  }

  /** The duplicates are exactly the orders printed more than once, each
      listed once with its number of prints. */
  lemma DuplicatesExactly(h: seq<Entry>, id: string, n: nat)
    ensures (id, n) in Duplicates(h) <==> Count(h, id) == n && n > 1
    ensures forall i, j :: 0 <= i < j < |Duplicates(h)| ==> Duplicates(h)[i].0 != Duplicates(h)[j].0
  {
    RepeatedMembers(Ids(h), h, id, n);
    PrintedIffCounted(h, id);
    RepeatedIdsDistinct(Ids(h), h);
  }

  /** An order printed once never shows up as a duplicate. */
  lemma PrintedOnceNotDuplicate(h: seq<Entry>, id: string)
    requires Count(h, id) == 1
    ensures forall i :: 0 <= i < |Duplicates(h)| ==> Duplicates(h)[i].0 != id
  {
    forall i | 0 <= i < |Duplicates(h)| ensures Duplicates(h)[i].0 != id {
      var p := Duplicates(h)[i];
      DuplicatesExactly(h, p.0, p.1);
    }
  }

  /** The tally loop of both history screens: `counts[oid] =
      counts.get(oid, 0) + 1` over the entries; `order` is the key order of
      the resulting dict. */
  method Tally(data: seq<Entry>) returns (counts: map<string, nat>, order: seq<string>)
    ensures order == Ids(data)
    ensures forall id :: id in counts <==> Printed(data, id)
    ensures forall id :: id in counts ==> counts[id] == Count(data, id)
  {
    counts, order := map[], [];
    var i := 0;
    while i < |data|
      invariant 0 <= i <= |data|
      invariant order == Ids(data[..i])
      invariant forall id :: id in counts <==> id in order
      invariant forall id :: id in counts ==> counts[id] == Count(data[..i], id)
    {
      var h, e := data[..i], data[i];
      assert data[..i + 1] == h + [e];
      IdsAppend(h, e);
      var id := e.orderId;
      PrintedIffCounted(h, id);
      var c := if id in counts then counts[id] else 0;
      if id !in counts {
        order := order + [id];
      }
      counts := counts[id := c + 1];
      forall k | k in counts ensures counts[k] == Count(h + [e], k) {
        CountAppend(h, e, k);
      }
      i := i + 1;
    }
    assert data[..i] == data;
  }

  /** `refresh_dupes`: tally the history, then list each id whose count
      exceeds one, in the dict's key order. */
  method ListDuplicates(data: seq<Entry>) returns (dupes: seq<(string, nat)>)
    ensures dupes == Duplicates(data)
  {
    var counts, order := Tally(data);
    dupes := [];
    var j := 0;
    while j < |order|
      invariant 0 <= j <= |order|
      invariant dupes == Repeated(order[..j], data)
    {
      assert order[..j + 1][..j] == order[..j];
      var oid := order[j];
      PrintedIffCounted(data, oid);
      var cnt := counts[oid];
      if cnt > 1 {
        dupes := dupes + [(oid, cnt)];
      }
      j := j + 1;
    }
    assert order[..j] == order;
  }

  /** What happens to the storage document when `save_history` writes. */
  datatype WriteOutcome =
    | Written           // the whole list reached the file
    | OpenFailed        // `open(..., "w")` raised: the file is as before
    | WriteInterrupted  // the file was truncated, then `json.dump` raised

  /** The list `load_history` returns for a stored document: a missing or
      unparsable file (`None`) reads as no history at all. */
  function Loaded(stored: Option<seq<Entry>>): seq<Entry> {
    match stored
    case None => []
    case Some(h) => h
  }

  /** The stored document after `save_history(h)` with outcome `w`. */
  function AfterSave(stored: Option<seq<Entry>>, h: seq<Entry>, w: WriteOutcome): (s: Option<seq<Entry>>)
    ensures Loaded(s) == (match w case Written => h case OpenFailed => Loaded(stored) case WriteInterrupted => [])
  {
    match w
    case Written => Some(h)
    case OpenFailed => stored
    case WriteInterrupted => None
  }

  /** The history file. `stored` is `None` when the file is missing or does
      not parse. */
  class Ledger {
    var stored: Option<seq<Entry>>

    constructor (initial: Option<seq<Entry>>)
      ensures stored == initial
    {
      stored := initial;
    }

    /** `load_history`: never fails; a missing or corrupt file reads as []. */
    method Load() returns (h: seq<Entry>)
      ensures stored.None? ==> h == []
      ensures stored.Some? ==> h == stored.value
    {
      if stored.Some? {
        h := stored.value;
      } else {
        h := [];
      }
    }

    /** `save_history`: a failure is reported and swallowed. */
    method Save(h: seq<Entry>, w: WriteOutcome)
      modifies this
      ensures stored == AfterSave(old(stored), h, w)
    {
      match w
      case Written => stored := Some(h);
      case OpenFailed =>
      case WriteInterrupted => stored := None;
    }

    /** `add_history_entry`: load, append one entry, save the whole list. */
    method AddEntry(orderId: string, customer: string, boxQty: int, timestamp: string, w: WriteOutcome)
      modifies this
      ensures stored == AfterSave(old(stored), Loaded(old(stored)) + [Entry(orderId, customer, boxQty, timestamp)], w)
      ensures w == Written ==>
                && |Loaded(stored)| == |Loaded(old(stored))| + 1
                && Loaded(stored)[..|Loaded(old(stored))|] == Loaded(old(stored))
                && Loaded(stored)[|Loaded(stored)| - 1] == Entry(orderId, customer, boxQty, timestamp)
    {
      var h := Load();
      h := h + [Entry(orderId, customer, boxQty, timestamp)];
      Save(h, w);
    }

    /** `has_been_printed`. */
    method HasBeenPrinted(orderId: string) returns (b: bool)
      ensures b <==> exists i :: 0 <= i < |Loaded(stored)| && Loaded(stored)[i].orderId == orderId
    {
      var h := Load();
      assert h == Loaded(stored);
      b := Printed(h, orderId);
    }
  }

  /** Once an entry for `orderId` is written, the order counts as printed. */
  lemma PrintedAfterAdd(h: seq<Entry>, e: Entry)
    ensures Printed(h + [e], e.orderId)
    ensures Count(h + [e], e.orderId) == Count(h, e.orderId) + 1
  {
    assert (h + [e])[|h|] == e;
    CountAppend(h, e, e.orderId);
  }

  /** Nothing is printed in an empty history. */
  lemma NothingPrintedInitially(stored: Option<seq<Entry>>, orderId: string)
    requires stored.None?
    ensures !Printed(Loaded(stored), orderId)
    ensures Duplicates(Loaded(stored)) == []
  {
  }
}
