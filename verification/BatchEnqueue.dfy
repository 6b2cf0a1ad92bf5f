/** Client.enqueueBatch: mapping what RETURNING yields back to the order of the request. */
module BatchEnqueue {
  import opened Wrappers
  import opened Jobs
  import opened Statements
  import opened JobTable
  import opened Enqueue

  const MAX_BATCH := 1000

  /** An id of None is the empty string the client falls back to. */
  datatype Result = Result(id: Option<Id>, deduplicated: bool)

  datatype Reply = Accepted(results: seq<Result>) | TooLarge | InvalidItem(index: nat) | Violation

  /** The id inserted under an idempotency key by this batch. */
  function InsertedUnder(batch: seq<NewJob>, ids: seq<Option<Id>>, key: string): Option<Id>
    requires |batch| == |ids|
  {
    if batch == [] then None
    else
      var n := |batch| - 1;
      if ids[n].Some? && batch[n].idempotencyKey == Some(key) then ids[n]
      else InsertedUnder(batch[..n], ids[..n], key)
  }

  /** The ids of the inserted rows without an idempotency key, in order. */
  function UnkeyedIds(batch: seq<NewJob>, ids: seq<Option<Id>>): seq<Id>
    requires |batch| == |ids|
  {
    if batch == [] then []
    else
      var n := |batch| - 1;
      UnkeyedIds(batch[..n], ids[..n])
      + (if ids[n].Some? && batch[n].idempotencyKey.None? then [ids[n].value] else [])
  }

  function UnkeyedItems(batch: seq<NewJob>): nat {
    if batch == [] then 0
    else UnkeyedItems(batch[..|batch| - 1]) + (if batch[|batch| - 1].idempotencyKey.None? then 1 else 0)
  }

  /** What the client reports for item i, with `found` the table it looks conflicts up in. */
  ghost function Reported(batch: seq<NewJob>, ids: seq<Option<Id>>, found: map<Id, Row>, i: nat): Result
    requires |batch| == |ids| && i < |batch|
  {
    match batch[i].idempotencyKey
    case Some(key) =>
      (match InsertedUnder(batch, ids, key)
       case Some(id) => Result(Some(id), false)
       case None => Result(Holder(found, batch[i].queue, key), true))
    case None =>
      var n, unkeyed := UnkeyedItems(batch[..i]), UnkeyedIds(batch, ids);
      Result(if n < |unkeyed| then Some(unkeyed[n]) else None, false)
  }

  /**
   The right answer for item i, from the table the insert left: its own job's id if it was
   inserted, otherwise the job that holds its idempotency key, otherwise none; `deduplicated`
   says that this call did not insert it.
   */
  ghost function Correct(batch: seq<NewJob>, ids: seq<Option<Id>>, after: map<Id, Row>, i: nat): Result
    requires |batch| == |ids| && i < |batch|
  {
    if ids[i].Some? then Result(ids[i], false)
    else if batch[i].idempotencyKey.Some? then
      Result(Holder(after, batch[i].queue, batch[i].idempotencyKey.value), true)
    else Result(None, true)
  }

  method LookUp(table: Table, queue: string, key: string) returns (id: Option<Id>)
    ensures id == Holder(table.jobs, queue, key)
    requires table.Valid()
  {
    if i :| i in table.jobs && HasKey(table.jobs[i], queue, key) {
      HolderUnique(table.jobs, queue, key, i);
      return Some(i);
    }
    return None;
  }

  /** Everything other sessions commit until the lookup of the item with the last of these gaps. */
  function Joined(gaps: seq<seq<Event>>): seq<Event> {
    if gaps == [] then [] else Joined(gaps[..|gaps| - 1]) + gaps[|gaps| - 1]
  }

  /** The table as item i's own lookup finds it. */
  function Found(db: Db, gaps: seq<seq<Event>>, i: nat): map<Id, Row>
    requires i < |gaps|
  {
    Play(db, Joined(gaps[..i + 1])).jobs
  }

  /** `items` are the validated rows, None where validation failed; `gaps[k]` commits before item k is looked at. */
  method EnqueueBatch(table: Table, items: seq<Option<NewJob>>, now: Time, gaps: seq<seq<Event>>)
    returns (reply: Reply)
    requires table.Valid() && |gaps| == |items|
    modifies table
    ensures table.Valid()
    ensures reply.TooLarge? <==> |items| > 1000
    ensures reply.InvalidItem? <==> |items| <= 1000 && exists k | 0 <= k < |items| :: items[k].None?
    ensures reply.InvalidItem? ==>
      reply.index < |items| && items[reply.index].None? && forall k | 0 <= k < reply.index :: items[k].Some?
    ensures reply.TooLarge? || reply.InvalidItem? || reply.Violation? || items == [] ==>
      table.Contents() == old(table.Contents())
    ensures reply.Violation? <==>
      && 0 < |items| <= 1000 && (forall k | 0 <= k < |items| :: items[k].Some?)
      && exists k | 0 <= k < |items| :: !Insertable(items[k].value)
    ensures reply.Accepted? ==> |reply.results| == |items| && forall k | 0 <= k < |items| :: items[k].Some?
    ensures reply.Accepted? && items != [] ==>
      var batch := seq(|items|, k requires 0 <= k < |items| => items[k].value);
      var ids := InsertedIds(old(table.jobs), old(table.nextId), batch, now);
      var db' := Apply(old(table.Contents()), Insert(batch), now);
      && table.Contents() == Play(db', Joined(gaps))
      && forall k | 0 <= k < |items| :: reply.results[k] == Reported(batch, ids, Found(db', gaps, k), k)
  {
    if items == [] {
      return Accepted([]);
    }
    if |items| > MAX_BATCH {
      return TooLarge;
    }
    var batch: seq<NewJob> := [];
    for k := 0 to |items|
      invariant |batch| == k && forall j | 0 <= j < k :: items[j] == Some(batch[j])
    {
      if items[k].None? {
        return InvalidItem(k);
      }
      batch := batch + [items[k].value];
    }
    assert batch == seq(|items|, k requires 0 <= k < |items| => items[k].value);
    var inserted := table.InsertJobs(batch, now);
    assert forall k | 0 <= k < |items| :: batch[k] == items[k].value && batch[k] in batch;
    if inserted.None? {
      assert Apply(old(table.Contents()), Insert(batch), now) == old(table.Contents());
      return Violation;
    }
    var ids := inserted.value;
    var results := MapBack(table, batch, ids, gaps);
    return Accepted(results);
  }

  method MapBack(table: Table, batch: seq<NewJob>, ids: seq<Option<Id>>, gaps: seq<seq<Event>>)
    returns (out: seq<Result>)
    requires table.Valid() && |batch| == |ids| == |gaps|
    modifies table
    ensures table.Valid() && table.Contents() == Play(old(table.Contents()), Joined(gaps))
    ensures |out| == |batch|
    ensures forall i | 0 <= i < |batch| :: out[i] == Reported(batch, ids, Found(old(table.Contents()), gaps, i), i)
  {
    var byKey, unkeyed := Index(batch, ids);
    out := [];
    var next := 0;
    ghost var start := table.Contents();
    for i := 0 to |batch|
      invariant table.Valid() && table.Contents() == Play(start, Joined(gaps[..i]))
      invariant |out| == i && next == UnkeyedItems(batch[..i])
      invariant forall j | 0 <= j < i :: out[j] == Reported(batch, ids, Found(start, gaps, j), j)
    {
      assert batch[..i + 1][..i] == batch[..i] && gaps[..i + 1][..i] == gaps[..i];
      PlayAppend(start, Joined(gaps[..i]), gaps[i]);
      table.Interfere(gaps[i]);
      match batch[i].idempotencyKey {
        case Some(key) =>
          if key in byKey {
            out := out + [Result(Some(byKey[key]), false)];
          } else {
            var id := LookUp(table, batch[i].queue, key);
            out := out + [Result(id, true)];
          }
        case None =>
          out := out + [Result(if next < |unkeyed| then Some(unkeyed[next]) else None, false)];
          next := next + 1;
      }
    }
    assert gaps[..|gaps|] == gaps;
  }

  /** The returned ids, by key and, for rows without one, in the order they came back. */
  method Index(batch: seq<NewJob>, ids: seq<Option<Id>>) returns (byKey: map<string, Id>, unkeyed: seq<Id>)
    requires |batch| == |ids|
    ensures forall key :: key in byKey <==> InsertedUnder(batch, ids, key).Some?
    ensures forall key | key in byKey :: InsertedUnder(batch, ids, key) == Some(byKey[key])
    ensures unkeyed == UnkeyedIds(batch, ids)
  {
    byKey, unkeyed := map[], [];
    for k := 0 to |batch|
      invariant forall key :: key in byKey <==> InsertedUnder(batch[..k], ids[..k], key).Some?
      invariant forall key | key in byKey :: InsertedUnder(batch[..k], ids[..k], key) == Some(byKey[key])
      invariant unkeyed == UnkeyedIds(batch[..k], ids[..k])
    {
      assert batch[..k + 1][..k] == batch[..k] && ids[..k + 1][..k] == ids[..k];
      if ids[k].Some? {
        match batch[k].idempotencyKey {
          case Some(key) => byKey := byKey[key := ids[k].value];
          case None => unkeyed := unkeyed + [ids[k].value];
        }
      }
    }
    assert batch[..|batch|] == batch && ids[..|ids|] == ids;
  }

  // ----- when the mapping is right -----

  lemma {:induction false} InsertedUnderItem(batch: seq<NewJob>, ids: seq<Option<Id>>, key: string)
    requires |batch| == |ids|
    ensures match InsertedUnder(batch, ids, key)
      case Some(id) => exists j | 0 <= j < |batch| :: ids[j] == Some(id) && batch[j].idempotencyKey == Some(key)
      case None => forall j | 0 <= j < |batch| :: ids[j].None? || batch[j].idempotencyKey != Some(key)
  {
    if batch != [] {
      var n := |batch| - 1;
      InsertedUnderItem(batch[..n], ids[..n], key);
      if InsertedUnder(batch[..n], ids[..n], key).Some? {
        var j :| 0 <= j < n && ids[..n][j] == InsertedUnder(batch[..n], ids[..n], key)
          && batch[..n][j].idempotencyKey == Some(key);
        assert ids[j] == InsertedUnder(batch[..n], ids[..n], key);
      }
    }
  }

  /** An inserted item's row is in the table under its id; one whose key was taken is not inserted. */
  lemma InsertedRows(jobs: map<Id, Row>, nextId: Id, batch: seq<NewJob>, now: Time, i: nat)
    requires (forall j | j in jobs :: j < nextId) && i < |batch|
    requires IdempotencyUnique(jobs) && ActiveKeyUnique(jobs)
    ensures var id := InsertedIds(jobs, nextId, batch, now)[i]; var after := InsertAll(jobs, nextId, batch, now);
      && (id.Some? ==> id.value == nextId + i && id.value in after && after[id.value] == FreshRow(batch[i], now))
      && (KeyTaken(jobs, batch[i]) ==> id.None?)
  {
    RowOfItem(jobs, nextId, batch, now, i);
    if KeyTaken(jobs, batch[i]) {
      var h :| h in jobs && HasKey(jobs[h], batch[i].queue, batch[i].idempotencyKey.value);
      KeyKeepsOut(jobs, nextId, batch, now, i, h);
    }
  }

  lemma {:induction false} KeyKeepsOut(jobs: map<Id, Row>, nextId: Id, batch: seq<NewJob>, now: Time, i: nat, h: Id)
    requires i < |batch| && batch[i].idempotencyKey.Some? && nextId > h
    requires h in jobs && HasKey(jobs[h], batch[i].queue, batch[i].idempotencyKey.value)
    ensures InsertedIds(jobs, nextId, batch, now)[i].None?
    decreases |batch|
  {
    var r := FreshRow(batch[0], now);
    var jobs' := if Conflicts(jobs, r) then jobs else jobs[nextId := r];
    if i > 0 {
      KeyKeepsOut(jobs', nextId + 1, batch[1..], now, i - 1, h);
    } else {
      assert SameIdempotency(r, jobs[h]);
    }
  }

  /** Every item that was not inserted had its idempotency key in the table already. */
  ghost predicate Mappable(before: map<Id, Row>, batch: seq<NewJob>, ids: seq<Option<Id>>)
    requires |batch| == |ids|
  {
    forall i | 0 <= i < |batch| :: ids[i].None? ==> KeyTaken(before, batch[i])
  }

  /** Another item of the batch was inserted under item i's key. */
  ghost predicate TwinInserted(batch: seq<NewJob>, ids: seq<Option<Id>>, i: nat)
    requires |batch| == |ids| && i < |batch|
  {
    batch[i].idempotencyKey.Some? && InsertedUnder(batch, ids, batch[i].idempotencyKey.value).Some?
  }

  /** Item i, and every item without a key before it, was inserted. */
  ghost predicate UnkeyedSoFar(batch: seq<NewJob>, ids: seq<Option<Id>>, i: nat)
    requires |batch| == |ids| && i < |batch|
  {
    forall k | 0 <= k <= i && batch[k].idempotencyKey.None? :: ids[k].Some?
  }

  /** A batch of one queue, and others that remove nothing and do not use its keys. */
  ghost predicate Undisturbed(db: Db, batch: seq<NewJob>, queue: string, others: seq<Event>) {
    && Healthy(db)
    && (forall j | j in batch :: j.queue == queue && Insertable(j))
    && (forall e, j | e in others && j in batch && j.idempotencyKey.Some? ::
          LeavesKey(e.stmt, queue, j.idempotencyKey.value))
  }

  lemma KeyedFound(db: Db, batch: seq<NewJob>, queue: string, now: Time, others: seq<Event>, i: nat)
    requires Undisturbed(db, batch, queue, others) && i < |batch| && batch[i].idempotencyKey.Some?
    ensures var db' := Apply(db, Insert(batch), now); var key := batch[i].idempotencyKey.value;
      Holder(Play(db', others).jobs, queue, key) == Holder(db'.jobs, queue, key)
  {
    var key := batch[i].idempotencyKey.value;
    var db' := Apply(db, Insert(batch), now);
    assert batch[i] in batch;
    ApplyHealthy(db, Insert(batch), now);
    forall e | e in others ensures LeavesKey(e.stmt, queue, key) {}
    HolderStaysAlong(db', others, queue, key);
  }

  lemma OwnKeyOwnRow(db: Db, batch: seq<NewJob>, queue: string, now: Time, i: nat)
    requires Undisturbed(db, batch, queue, []) && i < |batch| && batch[i].idempotencyKey.Some?
    ensures var ids := InsertedIds(db.jobs, db.nextId, batch, now);
      ids[i].Some? ==> InsertedUnder(batch, ids, batch[i].idempotencyKey.value) == ids[i]
  {
    var ids := InsertedIds(db.jobs, db.nextId, batch, now);
    var key := batch[i].idempotencyKey.value;
    var db' := Apply(db, Insert(batch), now);
    if ids[i].Some? {
      ApplyHealthy(db, Insert(batch), now);
      InsertedUnderItem(batch, ids, key);
      InsertedRows(db.jobs, db.nextId, batch, now, i);
      var id := InsertedUnder(batch, ids, key).value;
      var j :| 0 <= j < |batch| && ids[j] == Some(id) && batch[j].idempotencyKey == Some(key);
      InsertedRows(db.jobs, db.nextId, batch, now, j);
      assert batch[i] in batch && batch[j] in batch;
      HolderUnique(db'.jobs, queue, key, id);
      HolderUnique(db'.jobs, queue, key, ids[i].value);
    }
  }

  /** A keyed item is answered rightly unless it was kept out while its key went in with another item. */
  lemma KeyedItem(db: Db, batch: seq<NewJob>, queue: string, now: Time, others: seq<Event>, i: nat)
    requires Undisturbed(db, batch, queue, others) && i < |batch| && batch[i].idempotencyKey.Some?
    ensures var db' := Apply(db, Insert(batch), now); var ids := InsertedIds(db.jobs, db.nextId, batch, now);
      Reported(batch, ids, Play(db', others).jobs, i) == Correct(batch, ids, db'.jobs, i)
      <==> ids[i].Some? || !TwinInserted(batch, ids, i)
  {
    assert batch[i] in batch;
    KeyedFound(db, batch, queue, now, others, i);
    OwnKeyOwnRow(db, batch, queue, now, i);
  }

  lemma {:induction false} UnkeyedCounts(batch: seq<NewJob>, ids: seq<Option<Id>>)
    requires |batch| == |ids|
    ensures |UnkeyedIds(batch, ids)| <= UnkeyedItems(batch)
    ensures |UnkeyedIds(batch, ids)| == UnkeyedItems(batch)
       <==> forall k | 0 <= k < |batch| && batch[k].idempotencyKey.None? :: ids[k].Some?
  {
    if batch != [] {
      var n := |batch| - 1;
      UnkeyedCounts(batch[..n], ids[..n]);
      assert forall k | 0 <= k < n :: batch[..n][k] == batch[k] && ids[..n][k] == ids[k];
    }
  }

  /** Ids handed out to later items are larger. */
  predicate Rising(ids: seq<Option<Id>>) {
    forall j, k | 0 <= j < k < |ids| && ids[j].Some? && ids[k].Some? :: ids[j].value < ids[k].value
  }

  /** Where an inserted unkeyed item's id stands among the unkeyed ids. */
  lemma {:induction false} UnkeyedPlace(batch: seq<NewJob>, ids: seq<Option<Id>>, i: nat)
    requires |batch| == |ids| && i < |batch| && batch[i].idempotencyKey.None? && ids[i].Some?
    ensures UnkeyedIds(batch[..i], ids[..i]) + [ids[i].value] <= UnkeyedIds(batch, ids)
  {
    var n := |batch| - 1;
    if i < n {
      UnkeyedPlace(batch[..n], ids[..n], i);
      assert batch[..n][..i] == batch[..i] && ids[..n][..i] == ids[..i];
    }
  }

  lemma {:induction false} UnkeyedRising(batch: seq<NewJob>, ids: seq<Option<Id>>)
    requires |batch| == |ids| && Rising(ids)
    ensures var unkeyed := UnkeyedIds(batch, ids);
      && (forall x | x in unkeyed :: exists k | 0 <= k < |ids| :: ids[k] == Some(x))
      && (forall j, k | 0 <= j < k < |unkeyed| :: unkeyed[j] < unkeyed[k])
  {
    if batch != [] {
      var n := |batch| - 1;
      UnkeyedRising(batch[..n], ids[..n]);
      var init, all := UnkeyedIds(batch[..n], ids[..n]), UnkeyedIds(batch, ids);
      forall x | x in init ensures exists k | 0 <= k < n :: ids[k] == Some(x) {
        var k :| 0 <= k < |ids[..n]| && ids[..n][k] == Some(x);
        assert ids[k] == Some(x);
      }
      if all != init {
        assert all == init + [ids[n].value];
        forall j | 0 <= j < |init| ensures init[j] < ids[n].value {
          assert init[j] in init;
        }
      }
    }
  }

  /** An item without a key is answered rightly exactly if neither it nor one before it was debounced. */
  lemma UnkeyedItem(batch: seq<NewJob>, ids: seq<Option<Id>>, found: map<Id, Row>, after: map<Id, Row>, i: nat)
    requires |batch| == |ids| && Rising(ids) && i < |batch| && batch[i].idempotencyKey.None?
    ensures Reported(batch, ids, found, i) == Correct(batch, ids, after, i) <==> UnkeyedSoFar(batch, ids, i)
  {
    UnkeyedCounts(batch[..i], ids[..i]);
    UnkeyedRising(batch, ids);
    assert forall k | 0 <= k < i :: batch[..i][k] == batch[k] && ids[..i][k] == ids[k];
    var place, unkeyed := |UnkeyedIds(batch[..i], ids[..i])|, UnkeyedIds(batch, ids);
    if ids[i].Some? {
      UnkeyedPlace(batch, ids, i);
      assert unkeyed[place] == ids[i].value;
      assert forall k | place < k < |unkeyed| :: unkeyed[k] != ids[i].value;
    }
  }

  lemma {:induction false} IdsRise(jobs: map<Id, Row>, nextId: Id, batch: seq<NewJob>, now: Time)
    ensures var ids := InsertedIds(jobs, nextId, batch, now);
      |ids| == |batch| && forall k | 0 <= k < |ids| && ids[k].Some? :: ids[k].value == nextId + k
    decreases |batch|
  {
    if batch != [] {
      var taken := Conflicts(jobs, FreshRow(batch[0], now));
      var jobs' := if taken then jobs else jobs[nextId := FreshRow(batch[0], now)];
      IdsRise(jobs', nextId + 1, batch[1..], now);
      assert InsertedIds(jobs, nextId, batch, now)
          == [if taken then None else Some(nextId)] + InsertedIds(jobs', nextId + 1, batch[1..], now);
    }
  }

  /** The items a batch is answered wrongly on: none, if nothing was debounced or repeated. */
  ghost predicate Unambiguous(batch: seq<NewJob>, ids: seq<Option<Id>>)
    requires |batch| == |ids|
  {
    forall i | 0 <= i < |batch| && ids[i].None? :: batch[i].idempotencyKey.Some? && !TwinInserted(batch, ids, i)
  }

  /** Every item is answered rightly; `db` is the table the insert left. */
  ghost predicate AllCorrect(batch: seq<NewJob>, ids: seq<Option<Id>>, db: Db, gaps: seq<seq<Event>>)
    requires |batch| == |ids| == |gaps|
  {
    forall i | 0 <= i < |batch| :: Reported(batch, ids, Found(db, gaps, i), i) == Correct(batch, ids, db.jobs, i)
  }

  lemma {:induction false} JoinedPart(gaps: seq<seq<Event>>, i: nat)
    requires i <= |gaps|
    ensures forall e | e in Joined(gaps[..i]) :: e in Joined(gaps)
  {
    var n := |gaps| - 1;
    if i <= n {
      JoinedPart(gaps[..n], i);
      assert gaps[..n][..i] == gaps[..i];
    } else {
      assert gaps[..i] == gaps;
    }
  }

  /**
   Every item gets the right answer if and only if every item that was not inserted carries an
   idempotency key, and a key no other item was inserted under. A debounced item without a key,
   or a key repeated within the batch, breaks it.
   */
  lemma MappingExact(db: Db, batch: seq<NewJob>, queue: string, now: Time, gaps: seq<seq<Event>>)
    requires |gaps| == |batch| && Undisturbed(db, batch, queue, Joined(gaps))
    ensures var db' := Apply(db, Insert(batch), now); var ids := InsertedIds(db.jobs, db.nextId, batch, now);
      AllCorrect(batch, ids, db', gaps) <==> Unambiguous(batch, ids)
  {
    var db' := Apply(db, Insert(batch), now);
    var ids := InsertedIds(db.jobs, db.nextId, batch, now);
    IdsRise(db.jobs, db.nextId, batch, now);
    forall i | 0 <= i < |batch|
      ensures batch[i].idempotencyKey.Some? ==>
        (Reported(batch, ids, Found(db', gaps, i), i) == Correct(batch, ids, db'.jobs, i) <==>
           ids[i].Some? || !TwinInserted(batch, ids, i))
      ensures batch[i].idempotencyKey.None? ==>
        (Reported(batch, ids, Found(db', gaps, i), i) == Correct(batch, ids, db'.jobs, i) <==>
           UnkeyedSoFar(batch, ids, i))
    {
      JoinedPart(gaps, i + 1);
      if batch[i].idempotencyKey.Some? {
        KeyedItem(db, batch, queue, now, Joined(gaps[..i + 1]), i);
      } else {
        UnkeyedItem(batch, ids, Found(db', gaps, i), db'.jobs, i);
      }
    }
  }

  ghost predicate AllServed(batch: seq<NewJob>, ids: seq<Option<Id>>, db: Db, gaps: seq<seq<Event>>)
    requires |batch| == |ids| == |gaps|
  {
    forall i | 0 <= i < |batch| :: Reported(batch, ids, Found(db, gaps, i), i).id.Some?
  }

  /** A key the table held keeps the whole batch out, and stays with its holder. */
  lemma HeldKeepsOut(db: Db, batch: seq<NewJob>, queue: string, now: Time, i: nat)
    requires Undisturbed(db, batch, queue, []) && i < |batch| && KeyTaken(db.jobs, batch[i])
    ensures var ids := InsertedIds(db.jobs, db.nextId, batch, now);
      !TwinInserted(batch, ids, i)
      && Holder(Apply(db, Insert(batch), now).jobs, queue, batch[i].idempotencyKey.value).Some?
  {
    var ids := InsertedIds(db.jobs, db.nextId, batch, now);
    var key := batch[i].idempotencyKey.value;
    assert batch[i] in batch;
    InsertAllSpec(db.jobs, db.nextId, batch, now);
    var h :| h in db.jobs && HasKey(db.jobs[h], queue, key);
    assert HasKey(Apply(db, Insert(batch), now).jobs[h], queue, key);
    InsertedUnderItem(batch, ids, key);
    forall j | 0 <= j < |batch| ensures ids[j].None? || batch[j].idempotencyKey != Some(key) {
      InsertedRows(db.jobs, db.nextId, batch, now, j);
      assert batch[j] in batch;
    }
  }

  /** A key that is held afterwards was held before, or went in with an item of the batch. */
  lemma HeldFromBefore(jobs: map<Id, Row>, nextId: Id, batch: seq<NewJob>, now: Time, queue: string, key: string, h: Id)
    requires (forall j | j in jobs :: j < nextId) && IdempotencyUnique(jobs) && ActiveKeyUnique(jobs)
    requires h in InsertAll(jobs, nextId, batch, now) && HasKey(InsertAll(jobs, nextId, batch, now)[h], queue, key)
    ensures (h in jobs && HasKey(jobs[h], queue, key))
         || InsertedUnder(batch, InsertedIds(jobs, nextId, batch, now), key).Some?
  {
    InsertAllSpec(jobs, nextId, batch, now);
    if h !in jobs {
      RowsAreIds(jobs, nextId, batch, now, h);
      InsertedUnderItem(batch, InsertedIds(jobs, nextId, batch, now), key);
      assert batch[h - nextId].idempotencyKey == Some(key);
    }
  }

  /** A new row's id is the one its item was given. */
  lemma {:induction false} RowsAreIds(jobs: map<Id, Row>, nextId: Id, batch: seq<NewJob>, now: Time, h: Id)
    requires h !in jobs && h in InsertAll(jobs, nextId, batch, now)
    ensures nextId <= h < nextId + |batch| && InsertedIds(jobs, nextId, batch, now)[h - nextId] == Some(h)
    decreases |batch|
  {
    if batch != [] {
      var taken := Conflicts(jobs, FreshRow(batch[0], now));
      var jobs' := if taken then jobs else jobs[nextId := FreshRow(batch[0], now)];
      assert InsertedIds(jobs, nextId, batch, now)
          == [if taken then None else Some(nextId)] + InsertedIds(jobs', nextId + 1, batch[1..], now);
      if h !in jobs' {
        RowsAreIds(jobs', nextId + 1, batch[1..], now, h);
      }
    }
  }

  /**
   Every item is answered rightly and with a job, if and only if each one that was not inserted
   had its key in the table already.
   */
  lemma MappingServes(db: Db, batch: seq<NewJob>, queue: string, now: Time, gaps: seq<seq<Event>>)
    requires |gaps| == |batch| && Undisturbed(db, batch, queue, Joined(gaps))
    ensures var db' := Apply(db, Insert(batch), now); var ids := InsertedIds(db.jobs, db.nextId, batch, now);
      AllCorrect(batch, ids, db', gaps) && AllServed(batch, ids, db', gaps) <==> Mappable(db.jobs, batch, ids)
  {
    var db' := Apply(db, Insert(batch), now);
    var ids := InsertedIds(db.jobs, db.nextId, batch, now);
    MappingExact(db, batch, queue, now, gaps);
    forall i | 0 <= i < |batch| && ids[i].None? && batch[i].idempotencyKey.Some?
      ensures KeyTaken(db.jobs, batch[i]) <==>
        !TwinInserted(batch, ids, i) && Holder(db'.jobs, queue, batch[i].idempotencyKey.value).Some?
    {
      if KeyTaken(db.jobs, batch[i]) {
        HeldKeepsOut(db, batch, queue, now, i);
      } else if Holder(db'.jobs, queue, batch[i].idempotencyKey.value).Some? {
        var key := batch[i].idempotencyKey.value;
        assert batch[i] in batch;
        HeldFromBefore(db.jobs, db.nextId, batch, now, queue, key, Holder(db'.jobs, queue, key).value);
      }
    }
    forall i | 0 <= i < |batch| ensures batch[i].queue == queue {
      assert batch[i] in batch;
    }
    if AllCorrect(batch, ids, db', gaps) {
      forall i | 0 <= i < |batch|
        ensures Reported(batch, ids, Found(db', gaps, i), i).id.Some?
           <==> (ids[i].None? ==> KeyTaken(db.jobs, batch[i]))
      {
        assert Reported(batch, ids, Found(db', gaps, i), i) == Correct(batch, ids, db'.jobs, i);
      }
    }
  }

  // ----- the same condition, on what the caller hands over -----

  predicate Collide(j: NewJob, k: NewJob) {
    && j.queue == k.queue
    && ((j.idempotencyKey.Some? && j.idempotencyKey == k.idempotencyKey)
        || (j.uniqueKey.Some? && j.uniqueKey == k.uniqueKey))
  }

  /** Among the items whose idempotency key is not in the table: none is debounced, no two share a key. */
  ghost predicate NoClash(jobs: map<Id, Row>, batch: seq<NewJob>) {
    && (forall i | 0 <= i < |batch| && !KeyTaken(jobs, batch[i]) :: !ActiveTaken(jobs, batch[i]))
    && (forall i, k | 0 <= i < k < |batch| && !KeyTaken(jobs, batch[i]) && !KeyTaken(jobs, batch[k]) ::
          !Collide(batch[i], batch[k]))
  }

  /** What the first item's row adds to the keys that are held. */
  lemma HeldAfter(jobs: map<Id, Row>, nextId: Id, first: NewJob, now: Time, j: NewJob)
    requires nextId !in jobs
    ensures var jobs' := jobs[nextId := FreshRow(first, now)];
      && (KeyTaken(jobs', j) || ActiveTaken(jobs', j) <==>
            KeyTaken(jobs, j) || ActiveTaken(jobs, j) || Collide(first, j))
      && (KeyTaken(jobs', j) <==>
            KeyTaken(jobs, j)
            || (Collide(first, j) && j.idempotencyKey.Some? && j.idempotencyKey == first.idempotencyKey))
  {
    var jobs' := jobs[nextId := FreshRow(first, now)];
    assert nextId in jobs' && forall i | i in jobs :: i in jobs' && jobs'[i] == jobs[i];
    assert j.idempotencyKey.Some? ==> (HasKey(jobs'[nextId], j.queue, j.idempotencyKey.value)
                                       <==> first.queue == j.queue && first.idempotencyKey == j.idempotencyKey);
  }

  lemma NoClashHead(jobs: map<Id, Row>, batch: seq<NewJob>)
    requires batch != []
    ensures KeyTaken(jobs, batch[0]) ==> (NoClash(jobs, batch) <==> NoClash(jobs, batch[1..]))
    ensures !KeyTaken(jobs, batch[0]) ==>
      (NoClash(jobs, batch) <==>
         && !ActiveTaken(jobs, batch[0]) && NoClash(jobs, batch[1..])
         && forall k | 0 <= k < |batch[1..]| && !KeyTaken(jobs, batch[1..][k]) :: !Collide(batch[0], batch[1..][k]))
  {
    var rest := batch[1..];
    assert forall k | 0 <= k < |rest| :: rest[k] == batch[k + 1];
    assert forall k | 1 <= k < |batch| :: batch[k] == rest[k - 1];
  }

  lemma NoClashAfter(jobs: map<Id, Row>, nextId: Id, first: NewJob, rest: seq<NewJob>, now: Time)
    requires nextId !in jobs
    ensures var jobs' := jobs[nextId := FreshRow(first, now)];
      NoClash(jobs, rest) && (forall k | 0 <= k < |rest| && !KeyTaken(jobs, rest[k]) :: !Collide(first, rest[k]))
      <==> NoClash(jobs', rest) && (forall k | 0 <= k < |rest| && !KeyTaken(jobs, rest[k]) :: !KeyTaken(jobs', rest[k]))
  {
    forall k | 0 <= k < |rest| {
      HeldAfter(jobs, nextId, first, now, rest[k]);
    }
  }

  /**
   Every item that was not inserted had its idempotency key in the table already, if and only
   if no other item was debounced by the table and no two of them share a key.
   */
  lemma {:induction false} MappableExactly(jobs: map<Id, Row>, nextId: Id, batch: seq<NewJob>, now: Time)
    requires (forall i | i in jobs :: i < nextId) && IdempotencyUnique(jobs) && ActiveKeyUnique(jobs)
    ensures Mappable(jobs, batch, InsertedIds(jobs, nextId, batch, now)) <==> NoClash(jobs, batch)
    decreases |batch|
  {
    if batch != [] {
      var taken := Conflicts(jobs, FreshRow(batch[0], now));
      var jobs' := if taken then jobs else jobs[nextId := FreshRow(batch[0], now)];
      if !taken {
        NewRowUnique(jobs, nextId, FreshRow(batch[0], now));
      }
      MappableExactly(jobs', nextId + 1, batch[1..], now);
      if taken {
        TakenHead(jobs, nextId, batch, now);
      } else {
        FreeHead(jobs, nextId, batch, now);
      }
    }
  }

  lemma TakenHead(jobs: map<Id, Row>, nextId: Id, batch: seq<NewJob>, now: Time)
    requires batch != [] && Conflicts(jobs, FreshRow(batch[0], now))
    requires Mappable(jobs, batch[1..], InsertedIds(jobs, nextId + 1, batch[1..], now)) <==> NoClash(jobs, batch[1..])
    ensures Mappable(jobs, batch, InsertedIds(jobs, nextId, batch, now)) <==> NoClash(jobs, batch)
  {
    var ids, restIds := InsertedIds(jobs, nextId, batch, now), InsertedIds(jobs, nextId + 1, batch[1..], now);
    assert ids == [None] + restIds && ids[1..] == restIds;
    ConflictExplained(jobs, batch[0], now);
    NoClashHead(jobs, batch);
    MappableHead(jobs, batch, ids);
  }

  lemma FreeHead(jobs: map<Id, Row>, nextId: Id, batch: seq<NewJob>, now: Time)
    requires (forall i | i in jobs :: i < nextId) && IdempotencyUnique(jobs) && ActiveKeyUnique(jobs)
    requires batch != [] && !Conflicts(jobs, FreshRow(batch[0], now))
    requires var jobs' := jobs[nextId := FreshRow(batch[0], now)];
      Mappable(jobs', batch[1..], InsertedIds(jobs', nextId + 1, batch[1..], now)) <==> NoClash(jobs', batch[1..])
    ensures Mappable(jobs, batch, InsertedIds(jobs, nextId, batch, now)) <==> NoClash(jobs, batch)
  {
    var jobs' := jobs[nextId := FreshRow(batch[0], now)];
    var ids, restIds := InsertedIds(jobs, nextId, batch, now), InsertedIds(jobs', nextId + 1, batch[1..], now);
    assert ids == [Some(nextId)] + restIds && ids[1..] == restIds;
    ConflictExplained(jobs, batch[0], now);
    NoClashHead(jobs, batch);
    MappableHead(jobs, batch, ids);
    RestAgrees(jobs, nextId, batch[0], batch[1..], now);
  }

  lemma RestAgrees(jobs: map<Id, Row>, nextId: Id, first: NewJob, rest: seq<NewJob>, now: Time)
    requires (forall i | i in jobs :: i < nextId) && IdempotencyUnique(jobs) && ActiveKeyUnique(jobs)
    requires !Conflicts(jobs, FreshRow(first, now))
    requires var jobs' := jobs[nextId := FreshRow(first, now)];
      Mappable(jobs', rest, InsertedIds(jobs', nextId + 1, rest, now)) <==> NoClash(jobs', rest)
    ensures var jobs' := jobs[nextId := FreshRow(first, now)];
      Mappable(jobs, rest, InsertedIds(jobs', nextId + 1, rest, now)) <==>
        NoClash(jobs, rest) && forall k | 0 <= k < |rest| && !KeyTaken(jobs, rest[k]) :: !Collide(first, rest[k])
  {
    var jobs' := jobs[nextId := FreshRow(first, now)];
    var ids := InsertedIds(jobs', nextId + 1, rest, now);
    NoClashAfter(jobs, nextId, first, rest, now);
    forall k | 0 <= k < |rest|
      ensures KeyTaken(jobs', rest[k]) ==> ids[k].None?
      ensures KeyTaken(jobs, rest[k]) ==> KeyTaken(jobs', rest[k])
    {
      InsertedRows(jobs', nextId + 1, rest, now, k);
      HeldAfter(jobs, nextId, first, now, rest[k]);
    }
    MappableShift(jobs, jobs', rest, ids);
  }

  lemma MappableHead(jobs: map<Id, Row>, batch: seq<NewJob>, ids: seq<Option<Id>>)
    requires |batch| == |ids| && batch != []
    ensures Mappable(jobs, batch, ids)
       <==> (ids[0].None? ==> KeyTaken(jobs, batch[0])) && Mappable(jobs, batch[1..], ids[1..])
  {
    assert forall k | 1 <= k < |batch| :: batch[k] == batch[1..][k - 1] && ids[k] == ids[1..][k - 1];
  }

  /** Judged by the table before or after the first insert: the same, unless the insert took a key. */
  lemma MappableShift(jobs: map<Id, Row>, jobs': map<Id, Row>, rest: seq<NewJob>, ids: seq<Option<Id>>)
    requires |rest| == |ids|
    requires forall k | 0 <= k < |rest| :: KeyTaken(jobs, rest[k]) ==> KeyTaken(jobs', rest[k])
    requires forall k | 0 <= k < |rest| :: KeyTaken(jobs', rest[k]) ==> ids[k].None?
    ensures Mappable(jobs, rest, ids)
       <==> Mappable(jobs', rest, ids)
            && forall k | 0 <= k < |rest| && !KeyTaken(jobs, rest[k]) :: !KeyTaken(jobs', rest[k])
  {
  }

  /** Item i finds both of its keys free, in the table and among the items that entered before it. */
  ghost predicate Enters(jobs: map<Id, Row>, batch: seq<NewJob>, i: nat)
    requires i < |batch|
  {
    && !KeyTaken(jobs, batch[i]) && !ActiveTaken(jobs, batch[i])
    && forall k | 0 <= k < i && Enters(jobs, batch, k) :: !Collide(batch[k], batch[i])
  }

  lemma {:induction false} EntersTail(jobs: map<Id, Row>, nextId: Id, batch: seq<NewJob>, now: Time, i: nat)
    requires nextId !in jobs && 0 < i < |batch|
    ensures var jobs' := if Enters(jobs, batch, 0) then jobs[nextId := FreshRow(batch[0], now)] else jobs;
      Enters(jobs', batch[1..], i - 1) <==> Enters(jobs, batch, i)
    decreases i
  {
    var rest := batch[1..];
    var jobs' := if Enters(jobs, batch, 0) then jobs[nextId := FreshRow(batch[0], now)] else jobs;
    forall k | 0 <= k < i - 1
      ensures rest[k] == batch[k + 1] && (Enters(jobs', rest, k) <==> Enters(jobs, batch, k + 1))
    {
      EntersTail(jobs, nextId, batch, now, k + 1);
    }
    HeldAfter(jobs, nextId, batch[0], now, batch[i]);
    assert forall k | 1 <= k < i :: Enters(jobs', rest, k - 1) <==> Enters(jobs, batch, k);
  }

  /** Which items a batch inserts, by the table and the request alone. */
  lemma {:induction false} InsertedExactly(jobs: map<Id, Row>, nextId: Id, batch: seq<NewJob>, now: Time, i: nat)
    requires (forall j | j in jobs :: j < nextId) && i < |batch|
    ensures InsertedIds(jobs, nextId, batch, now)[i].Some? <==> Enters(jobs, batch, i)
    decreases |batch|
  {
    var taken := Conflicts(jobs, FreshRow(batch[0], now));
    var jobs' := if taken then jobs else jobs[nextId := FreshRow(batch[0], now)];
    var rest := InsertedIds(jobs', nextId + 1, batch[1..], now);
    assert InsertedIds(jobs, nextId, batch, now) == [if taken then None else Some(nextId)] + rest;
    ConflictExplained(jobs, batch[0], now);
    if i > 0 {
      EntersTail(jobs, nextId, batch, now, i);
      InsertedExactly(jobs', nextId + 1, batch[1..], now, i - 1);
    }
  }

  /** What a caller can check beforehand: whatever stays out has a key, and one that no other item enters under. */
  ghost predicate Answerable(jobs: map<Id, Row>, batch: seq<NewJob>) {
    forall i | 0 <= i < |batch| && !Enters(jobs, batch, i) ::
      && batch[i].idempotencyKey.Some?
      && forall k | 0 <= k < |batch| && Enters(jobs, batch, k) :: batch[k].idempotencyKey != batch[i].idempotencyKey
  }

  lemma AnswerableExactly(jobs: map<Id, Row>, nextId: Id, batch: seq<NewJob>, now: Time)
    requires forall j | j in jobs :: j < nextId
    ensures Unambiguous(batch, InsertedIds(jobs, nextId, batch, now)) <==> Answerable(jobs, batch)
  {
    var ids := InsertedIds(jobs, nextId, batch, now);
    forall i | 0 <= i < |batch| ensures ids[i].Some? <==> Enters(jobs, batch, i) {
      InsertedExactly(jobs, nextId, batch, now, i);
    }
    forall i | 0 <= i < |batch| && batch[i].idempotencyKey.Some?
      ensures TwinInserted(batch, ids, i) <==>
        exists k | 0 <= k < |batch| && Enters(jobs, batch, k) :: batch[k].idempotencyKey == batch[i].idempotencyKey
    {
      InsertedUnderItem(batch, ids, batch[i].idempotencyKey.value);
    }
  }

  // ----- how it breaks -----

  predicate Plain(j: NewJob) {
    j.idempotencyKey.None? && Insertable(j)
  }

  /**
   A debounced item is reported as the creator of the next item's job, and the next item as
   having none: for every table in which the first item's unique key is taken.
   */
  lemma DebouncedItemTakesNextId(db: Db, first: NewJob, second: NewJob, now: Time, found: map<Id, Row>)
    requires Healthy(db) && Plain(first) && Plain(second) && ActiveTaken(db.jobs, first) && second.uniqueKey.None?
    ensures var batch := [first, second]; var ids := InsertedIds(db.jobs, db.nextId, batch, now);
      && ids == [None, Some(db.nextId + 1)]
      && Reported(batch, ids, found, 0) == Result(Some(db.nextId + 1), false)
      && Reported(batch, ids, found, 1) == Result(None, false)
  {
    var batch := [first, second];
    ConflictExplained(db.jobs, first, now);
    ConflictExplained(db.jobs, second, now);
    TwoIds(db.jobs, db.nextId, first, second, now);
    var ids := InsertedIds(db.jobs, db.nextId, batch, now);
    assert |batch[..1]| == |ids[..1]| == 1 && batch[..1][..0] == batch[..0] == [];
    assert UnkeyedIds(batch[..1], ids[..1]) == [];
    assert UnkeyedItems(batch[..1]) == 1 && UnkeyedItems(batch[..0]) == 0;
  }

  lemma TwoIds(jobs: map<Id, Row>, nextId: Id, first: NewJob, second: NewJob, now: Time)
    requires Conflicts(jobs, FreshRow(first, now)) && !Conflicts(jobs, FreshRow(second, now))
    ensures InsertedIds(jobs, nextId, [first, second], now) == [None, Some(nextId + 1)]
  {
    assert [first, second][1..] == [second] && [second][1..] == [];
    var jobs' := jobs[nextId + 1 := FreshRow(second, now)];
    assert InsertedIds(jobs', nextId + 2, [], now) == [];
    assert InsertedIds(jobs, nextId + 1, [second], now) == [Some(nextId + 1)];
  }

  const DEBOUNCED := NewJob("q", "t", 0, 5, 30, None, None, Some("u"), None)
  const UNKEYED := NewJob("q", "t", 0, 5, 30, None, None, None, None)

  /** Enqueue a job with unique key "u", then a batch of another one and a job without keys. */
  lemma DebouncedBatch()
    ensures var db := Apply(EMPTY, Insert([DEBOUNCED]), 0); var batch := [DEBOUNCED, UNKEYED];
      var ids := InsertedIds(db.jobs, db.nextId, batch, 0);
      && db.jobs == map[1 := FreshRow(DEBOUNCED, 0)] && ids == [None, Some(3)]
      && Reported(batch, ids, Apply(db, Insert(batch), 0).jobs, 0) == Result(Some(3), false)
      && Reported(batch, ids, Apply(db, Insert(batch), 0).jobs, 1) == Result(None, false)
  {
    var db := Apply(EMPTY, Insert([DEBOUNCED]), 0);
    var jobs := map[1 := FreshRow(DEBOUNCED, 0)];
    assert [DEBOUNCED][1..] == [];
    assert InsertAll(map[], 1, [DEBOUNCED], 0) == InsertAll(jobs, 2, [], 0) == jobs;
    ApplyHealthy(EMPTY, Insert([DEBOUNCED]), 0);
    assert 1 in db.jobs && db.jobs[1].uniqueKey == Some("u");
    assert ActiveTaken(db.jobs, DEBOUNCED);
    DebouncedItemTakesNextId(db, DEBOUNCED, UNKEYED, 0, Apply(db, Insert([DEBOUNCED, UNKEYED]), 0).jobs);
  }
}
