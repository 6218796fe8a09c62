/** `HistoryManager` of src/lib/history.ts: the browser's list of past generations,
    newest first and capped at ten records, kept as JSON under one localStorage key.
    localStorage is a map from keys to what is stored there; the JSON text itself is
    abstracted to the record list it encodes, or to text that does not parse. */
module HistoryStore {
  import opened Wrappers
  import opened Types

  const HistoryKey := "formily_history"
  const MaxHistoryCount := 10

  /** What one localStorage key holds: the JSON of a record array, or any other text
      (`JSON.parse` rejects it, or it is the empty string). */
  datatype Stored = Records(list: seq<HistoryRecord>) | Unreadable(text: string)

  type Storage = map<string, Stored>

  /** Nothing but `key` differs between the two storages. */
  ghost predicate OthersUnchanged(before: Storage, after: Storage, key: string) {
    forall k :: k != key ==> (k in after <==> k in before) && (k in after ==> after[k] == before[k])
  }

  /** `getHistory()`: the stored list; a missing key or unreadable text reads as empty. */
  function GetHistory(storage: Storage): (h: seq<HistoryRecord>)
    ensures HistoryKey in storage && storage[HistoryKey].Records? ==> h == storage[HistoryKey].list
    ensures HistoryKey !in storage || storage[HistoryKey].Unreadable? ==> h == []
  {
    if HistoryKey in storage && storage[HistoryKey].Records? then storage[HistoryKey].list else []
  }

  /** The record `addHistory` builds: the caller's fields, a fresh id and the creation time. */
  function Stamp(rec: NewRecord, id: string, createdAt: int): (r: HistoryRecord)
    ensures r.image == rec.image && r.prompt == rec.prompt && r.schema == rec.schema
    ensures r.success == rec.success && r.id == id && r.createdAt == createdAt
  {
    HistoryRecord(id, rec.image, rec.prompt, rec.schema, createdAt, rec.success)
  }

  /** `addHistory(rec)` at time `now` with generated id `id`: the new record goes in
      front, the list is cut to `MaxHistoryCount`, and the result is written back. */
  function AddHistory(storage: Storage, rec: NewRecord, id: string, now: int): (after: Storage)
    ensures HistoryKey in after && after[HistoryKey].Records?
    ensures 1 <= |GetHistory(after)| <= MaxHistoryCount
    ensures GetHistory(after)[0] == Stamp(rec, id, now)
    ensures var before := GetHistory(storage);
            GetHistory(after)[1..] == before[..if |before| < MaxHistoryCount then |before| else MaxHistoryCount - 1]
    ensures OthersUnchanged(storage, after, HistoryKey)
  {
    var history := [Stamp(rec, id, now)] + GetHistory(storage);
    var kept := if |history| > MaxHistoryCount then history[..MaxHistoryCount] else history;
    storage[HistoryKey := Records(kept)]
  }

  /** The records of `h` whose id is not `id`, in their original order
      (`history.filter(record => record.id !== id)`). */
  function Without(h: seq<HistoryRecord>, id: string): (r: seq<HistoryRecord>)
    ensures |r| <= |h|
    ensures forall k :: 0 <= k < |r| ==> r[k].id != id
  {
    if |h| == 0 then []
    else if h[0].id == id then Without(h[1..], id)
    else [h[0]] + Without(h[1..], id)
  }

  /** `removeHistory(id)`: every record with that id disappears, the others stay. */
  function RemoveHistory(storage: Storage, id: string): (after: Storage)
    ensures forall x :: x in GetHistory(after) <==> x in GetHistory(storage) && x.id != id
    ensures OthersUnchanged(storage, after, HistoryKey)
    ensures GetHistory(after) == Without(GetHistory(storage), id)
  {
    WithoutMembers(GetHistory(storage), id);
    storage[HistoryKey := Records(Without(GetHistory(storage), id))]
  }

  /** A record survives the filter exactly when it was there and has another id. */
  lemma {:induction false} WithoutMembers(h: seq<HistoryRecord>, id: string)
    ensures forall x :: x in Without(h, id) <==> x in h && x.id != id
  {
    if |h| > 0 {
      WithoutMembers(h[1..], id);
      assert forall x :: x in h <==> x == h[0] || x in h[1..];
    }
  }

  /** `clearHistory()`: the key is removed. */
  function ClearHistory(storage: Storage): (after: Storage)
    ensures HistoryKey !in after
    ensures OthersUnchanged(storage, after, HistoryKey)
  {
    storage - {HistoryKey}
  }

  /** Index of the first record of `h` with id `id`. */
  function FirstWithId(h: seq<HistoryRecord>, id: string): (r: Option<nat>)
    ensures r.Some? ==> r.value < |h| && h[r.value].id == id
    ensures forall j :: 0 <= j < |h| && (r.None? || j < r.value) ==> h[j].id != id
  {
    if |h| == 0 then None
    else if h[0].id == id then Some(0)
    else match FirstWithId(h[1..], id)
      case None => None
      case Some(i) => Some(i + 1)
  }

  /** `getHistoryById(id)`: the first stored record with that id, or `null`. */
  function GetHistoryById(storage: Storage, id: string): (r: Option<HistoryRecord>)
    ensures r.None? <==> forall x :: x in GetHistory(storage) ==> x.id != id
    ensures r.Some? ==> r.value.id == id
    ensures r.Some? ==> exists i :: (0 <= i < |GetHistory(storage)| && GetHistory(storage)[i] == r.value
                                     && forall j :: 0 <= j < i ==> GetHistory(storage)[j].id != id)
  {
    var h := GetHistory(storage);
    match FirstWithId(h, id)
    case None => None
    case Some(i) => Some(h[i])
  }

  /** After `clearHistory`, and whenever the stored text is unreadable, the list is empty. */
  lemma ClearEmptiesHistory(storage: Storage, text: string)
    ensures GetHistory(ClearHistory(storage)) == []
    ensures GetHistory(storage[HistoryKey := Unreadable(text)]) == []
  {
  }

  /** `idx` lists, in increasing order, exactly the positions of `h` whose record is
      kept when `id` is removed, and `Without(h, id)` reads the records at them. */
  ghost predicate KeptPositions(h: seq<HistoryRecord>, id: string, idx: seq<nat>) {
    && |idx| == |Without(h, id)|
    && (forall k :: 0 <= k < |idx| ==> idx[k] < |h| && Without(h, id)[k] == h[idx[k]])
    && (forall k, l :: 0 <= k < l < |idx| ==> idx[k] < idx[l])
    && (forall i :: 0 <= i < |h| && h[i].id != id ==> i in idx)
  }

  /** `removeHistory` keeps the surviving records in their original relative order:
      they sit at strictly increasing positions `idx` of the old list, and every old
      position left out held the removed id. */
  lemma {:induction false} RemoveKeepsOrder(h: seq<HistoryRecord>, id: string) returns (idx: seq<nat>)
    ensures KeptPositions(h, id, idx)
  {
    if |h| == 0 {
      idx := [];
    } else {
      var tail := RemoveKeepsOrder(h[1..], id);
      ShiftedPositions(h, id, tail);
      if h[0].id == id {
        idx := Shift(tail);
        KeptWhenHeadRemoved(h, id, idx);
      } else {
        idx := [0] + Shift(tail);
        KeptWhenHeadStays(h, id, Shift(tail));
      }
    }
  }

  /** `s` lists, in increasing order, exactly the positions after the first of `h`
      whose record is kept, and `Without(h[1..], id)` reads the records at them. */
  ghost predicate KeptAfterHead(h: seq<HistoryRecord>, id: string, s: seq<nat>)
    requires |h| > 0
  {
    && |s| == |Without(h[1..], id)|
    && (forall k :: 0 <= k < |s| ==> 1 <= s[k] < |h| && Without(h[1..], id)[k] == h[s[k]])
    && (forall k, l :: 0 <= k < l < |s| ==> s[k] < s[l])
    && (forall i :: 1 <= i < |h| && h[i].id != id ==> i in s)
  }

  /** A removed first record adds no position. */
  lemma KeptWhenHeadRemoved(h: seq<HistoryRecord>, id: string, s: seq<nat>)
    requires |h| > 0 && h[0].id == id && KeptAfterHead(h, id, s)
    ensures KeptPositions(h, id, s)
  {
    assert Without(h, id) == Without(h[1..], id);
  }

  /** A kept first record adds position 0 in front. */
  lemma KeptWhenHeadStays(h: seq<HistoryRecord>, id: string, s: seq<nat>)
    requires |h| > 0 && h[0].id != id && KeptAfterHead(h, id, s)
    ensures KeptPositions(h, id, [0] + s)
  {
    HeadStaysReads(h, id, s);
    HeadStaysSorted(s);
    HeadStaysCovers(h, id, s);
  }

  lemma HeadStaysReads(h: seq<HistoryRecord>, id: string, s: seq<nat>)
    requires |h| > 0 && h[0].id != id
    requires |s| == |Without(h[1..], id)|
    requires forall k :: 0 <= k < |s| ==> 1 <= s[k] < |h| && Without(h[1..], id)[k] == h[s[k]]
    ensures |[0] + s| == |Without(h, id)|
    ensures forall k :: 0 <= k < |s| + 1 ==> ([0] + s)[k] < |h| && Without(h, id)[k] == h[([0] + s)[k]]
  {
    var idx := [0] + s;
    var w := Without(h, id);
    assert w == [h[0]] + Without(h[1..], id);
    forall k | 0 <= k < |idx|
      ensures idx[k] < |h| && w[k] == h[idx[k]]
    {
      if k > 0 {
        assert idx[k] == s[k - 1];
      }
    }
  }

  lemma HeadStaysSorted(s: seq<nat>)
    requires forall k :: 0 <= k < |s| ==> 1 <= s[k]
    requires forall k, l :: 0 <= k < l < |s| ==> s[k] < s[l]
    ensures forall k, l :: 0 <= k < l < |s| + 1 ==> ([0] + s)[k] < ([0] + s)[l]
  {
    var idx := [0] + s;
    forall k, l | 0 <= k < l < |idx|
      ensures idx[k] < idx[l]
    {
      assert idx[l] == s[l - 1];
      if k > 0 {
        assert idx[k] == s[k - 1];
      }
    }
  }

  lemma HeadStaysCovers(h: seq<HistoryRecord>, id: string, s: seq<nat>)
    requires |h| > 0 && h[0].id != id
    requires forall i :: 1 <= i < |h| && h[i].id != id ==> i in s
    ensures forall i :: 0 <= i < |h| && h[i].id != id ==> i in [0] + s
  {
    var idx := [0] + s;
    forall i | 0 <= i < |h| && h[i].id != id
      ensures i in idx
    {
      if i > 0 {
        var k :| 0 <= k < |s| && s[k] == i;
        assert idx[k + 1] == i;
      }
    }
  }

  /** The kept positions of the tail, shifted by one, are kept positions of `h`. */
  lemma ShiftedPositions(h: seq<HistoryRecord>, id: string, tail: seq<nat>)
    requires |h| > 0 && KeptPositions(h[1..], id, tail)
    ensures KeptAfterHead(h, id, Shift(tail))
  {
    ShiftReads(h, Without(h[1..], id), tail);
    ShiftSorted(tail);
    ShiftCovers(h, id, tail);
  }

  lemma ShiftReads(h: seq<HistoryRecord>, w: seq<HistoryRecord>, tail: seq<nat>)
    requires |h| > 0 && |tail| == |w|
    requires forall k :: 0 <= k < |tail| ==> tail[k] < |h[1..]| && w[k] == h[1..][tail[k]]
    ensures |Shift(tail)| == |w|
    ensures forall k :: 0 <= k < |tail| ==> 1 <= Shift(tail)[k] < |h| && w[k] == h[Shift(tail)[k]]
  {
    var shifted := Shift(tail);
    forall k | 0 <= k < |tail|
      ensures 1 <= shifted[k] < |h| && w[k] == h[shifted[k]]
    {
      assert h[1..][tail[k]] == h[shifted[k]];
    }
  }

  lemma ShiftSorted(tail: seq<nat>)
    requires forall k, l :: 0 <= k < l < |tail| ==> tail[k] < tail[l]
    ensures forall k, l :: 0 <= k < l < |tail| ==> Shift(tail)[k] < Shift(tail)[l]
  {
  }

  lemma ShiftCovers(h: seq<HistoryRecord>, id: string, tail: seq<nat>)
    requires |h| > 0
    requires forall i :: 0 <= i < |h[1..]| && h[1..][i].id != id ==> i in tail
    ensures forall i :: 1 <= i < |h| && h[i].id != id ==> i in Shift(tail)
  {
    var shifted := Shift(tail);
    forall i | 1 <= i < |h| && h[i].id != id
      ensures i in shifted
    {
      assert h[1..][i - 1] == h[i];
      assert i - 1 in tail;
      var k :| 0 <= k < |tail| && tail[k] == i - 1;
      assert shifted[k] == i;
    }
  }

  /** Every position moved one place to the right. */
  function Shift(idx: seq<nat>): (r: seq<nat>)
    ensures |r| == |idx|
    ensures forall k :: 0 <= k < |r| ==> r[k] == idx[k] + 1
  {
    seq(|idx|, k requires 0 <= k < |idx| => idx[k] + 1)
  }

  /** Removing an id nobody has leaves the list as it was. */
  lemma {:induction false} RemoveAbsentIsIdentity(storage: Storage, id: string)
    requires forall x :: x in GetHistory(storage) ==> x.id != id
    ensures GetHistory(RemoveHistory(storage, id)) == GetHistory(storage)
  {
    WithoutAbsent(GetHistory(storage), id);
  }

  lemma {:induction false} WithoutAbsent(h: seq<HistoryRecord>, id: string)
    requires forall x :: x in h ==> x.id != id
    ensures Without(h, id) == h
  {
    if |h| > 0 {
      assert h[0] in h;
      assert forall x :: x in h[1..] ==> x in h;
      WithoutAbsent(h[1..], id);
    }
  }

  /** A removed id can no longer be looked up. */
  lemma RemoveThenLookup(storage: Storage, id: string)
    ensures GetHistoryById(RemoveHistory(storage, id), id).None?
  {
  }

  /** A freshly added record is found by its id. */
  lemma AddThenLookup(storage: Storage, rec: NewRecord, id: string, now: int)
    ensures GetHistoryById(AddHistory(storage, rec, id, now), id) == Some(Stamp(rec, id, now))
  {
    var h := GetHistory(AddHistory(storage, rec, id, now));
    assert FirstWithId(h, id) == Some(0);
  }

  /** One `addHistory` call per element of `recs`, in order; `ids[k]` and `times[k]`
      are the id and time the k-th call generates. */
  function AddAll(storage: Storage, recs: seq<NewRecord>, ids: seq<string>, times: seq<int>): Storage
    requires |recs| == |ids| == |times|
    decreases |recs|
  {
    if |recs| == 0 then storage
    else
      var n := |recs| - 1;
      AddHistory(AddAll(storage, recs[..n], ids[..n], times[..n]), recs[n], ids[n], times[n])
  }

  /** The records of a batch of adds, newest (last added) first. */
  function NewestFirst(recs: seq<NewRecord>, ids: seq<string>, times: seq<int>): (r: seq<HistoryRecord>)
    requires |recs| == |ids| == |times|
    ensures |r| == |recs|
    decreases |recs|
  {
    if |recs| == 0 then []
    else
      var n := |recs| - 1;
      [Stamp(recs[n], ids[n], times[n])] + NewestFirst(recs[..n], ids[..n], times[..n])
  }

  function Cap(h: seq<HistoryRecord>): seq<HistoryRecord> {
    if |h| > MaxHistoryCount then h[..MaxHistoryCount] else h
  }

  /** After any sequence of adds the list holds the most recent records, newest first,
      followed by the older list, all cut to `MaxHistoryCount`. */
  lemma {:induction false} AddAllKeepsMostRecent(storage: Storage, recs: seq<NewRecord>, ids: seq<string>, times: seq<int>)
    requires |recs| == |ids| == |times| >= 1
    ensures GetHistory(AddAll(storage, recs, ids, times)) == Cap(NewestFirst(recs, ids, times) + GetHistory(storage))
    decreases |recs|
  {
    var n := |recs| - 1;
    var before := AddAll(storage, recs[..n], ids[..n], times[..n]);
    var older := NewestFirst(recs[..n], ids[..n], times[..n]);
    if n == 0 {
      assert before == storage && older == [];
      AddIsCap(storage, recs[n], ids[n], times[n]);
      assert [Stamp(recs[n], ids[n], times[n])] + older == [Stamp(recs[n], ids[n], times[n])];
    } else {
      AddAllKeepsMostRecent(storage, recs[..n], ids[..n], times[..n]);
      AddOnCapped(before, recs[n], ids[n], times[n], older, GetHistory(storage));
    }
  }

  /** An add on top of a list that is already a capped concatenation. */
  lemma AddOnCapped(before: Storage, rec: NewRecord, id: string, now: int,
                    older: seq<HistoryRecord>, prior: seq<HistoryRecord>)
    requires GetHistory(before) == Cap(older + prior)
    ensures GetHistory(AddHistory(before, rec, id, now)) == Cap(([Stamp(rec, id, now)] + older) + prior)
  {
    var first := Stamp(rec, id, now);
    AddIsCap(before, rec, id, now);
    CapOfCap([first], older + prior);
    assert [first] + (older + prior) == ([first] + older) + prior;
  }

  /** One add is a cons followed by the cap. */
  lemma AddIsCap(storage: Storage, rec: NewRecord, id: string, now: int)
    ensures GetHistory(AddHistory(storage, rec, id, now)) == Cap([Stamp(rec, id, now)] + GetHistory(storage))
  {
  }

  lemma CapOfCap(a: seq<HistoryRecord>, b: seq<HistoryRecord>)
    ensures Cap(a + Cap(b)) == Cap(a + b)
  {
    if |b| > MaxHistoryCount {
      assert (a + b)[..MaxHistoryCount] == (a + b[..MaxHistoryCount])[..MaxHistoryCount];
    }
  }
}
