/** The in-memory session history (src/lib/store.ts): a newest-first list
    of saved generation sessions, capped at 50 entries. */
module SessionStore {
  import opened Js
  import opened Types

  /** One saved generation: its inputs and the candidates it produced. */
  datatype SessionRecord = SessionRecord(
    id: string,
    createdAt: string,
    useCase: string,
    sliders: PartialRecord,
    constraints: Option<GenerateConstraints>,
    candidates: seq<Candidate>)

  /** The store keeps at most this many sessions. */
  const Capacity: nat := 50

  /** `getLocalHistory()` without an argument returns this many. */
  const DefaultHistoryLimit: int := 20

  /** `saveLocalSession`: put the record in front, then cut the list back
      to the capacity, which drops the oldest sessions. */
  function Save(sessions: seq<SessionRecord>, record: SessionRecord): (r: seq<SessionRecord>)
    ensures |r| == if |sessions| < Capacity then |sessions| + 1 else Capacity
    ensures r[0] == record
    ensures r[1..] == sessions[..|r| - 1]
  {
    var pushed := [record] + sessions;
    if |pushed| > Capacity then pushed[..Capacity] else pushed
  }

  /** `getLocalHistory(limit)`: `slice(0, limit)` of the newest-first list. */
  function History(sessions: seq<SessionRecord>, limit: int): (r: seq<SessionRecord>)
    ensures 0 <= limit ==> |r| == if limit < |sessions| then limit else |sessions|
    ensures |r| <= |sessions| && r == sessions[..|r|]
  {
    SliceTo(sessions, limit)
  }

  /** `getLocalSessionById`: the first, so most recently saved, record with
      the id, or None. */
  function FindById(sessions: seq<SessionRecord>, id: string): (r: Option<SessionRecord>)
    ensures r.None? <==> forall i | 0 <= i < |sessions| :: sessions[i].id != id
    ensures r.Some? ==> exists i | 0 <= i < |sessions| ::
              sessions[i] == r.value && r.value.id == id
              && forall j | 0 <= j < i :: sessions[j].id != id
  {
    if |sessions| == 0 then None
    else if sessions[0].id == id then Some(sessions[0])
    else
      var r := FindById(sessions[1..], id);
      assert forall i | 1 <= i < |sessions| :: sessions[1..][i - 1] == sessions[i];
      r
  }

  /** A store that starts empty and only ever saves never exceeds the cap. */
  predicate Bounded(sessions: seq<SessionRecord>)
  {
    |sessions| <= Capacity
  }

  lemma SaveKeepsBound(sessions: seq<SessionRecord>, record: SessionRecord)
    ensures Bounded(Save(sessions, record))
    ensures |Save(sessions, record)| == Capacity <==> |sessions| >= Capacity - 1
  {}

  /** Saving into a full store forgets exactly the oldest session. */
  lemma SaveIntoFullDropsOldest(sessions: seq<SessionRecord>, record: SessionRecord)
    requires |sessions| == Capacity
    ensures Save(sessions, record) == [record] + sessions[..Capacity - 1]
  {
    var r := Save(sessions, record);
    assert r[1..] == sessions[..Capacity - 1];
    assert r == [r[0]] + r[1..];
  }

  /** Saving below the cap keeps every older session. */
  lemma SaveBelowCapKeepsAll(sessions: seq<SessionRecord>, record: SessionRecord)
    requires |sessions| < Capacity
    ensures Save(sessions, record) == [record] + sessions
  {
    var r := Save(sessions, record);
    assert r == [r[0]] + r[1..];
  }

  /** Right after a save, looking up its id finds that very record, even
      if an older session had the same id. */
  lemma FindAfterSave(sessions: seq<SessionRecord>, record: SessionRecord)
    ensures FindById(Save(sessions, record), record.id) == Some(record)
  {
    var r := Save(sessions, record);
    assert r[0] == record;
  }

  /** A save does not change what other ids resolve to while the store is
      below its cap. */
  lemma FindOtherAfterSave(sessions: seq<SessionRecord>, record: SessionRecord, id: string)
    requires |sessions| < Capacity
    requires id != record.id
    ensures FindById(Save(sessions, record), id) == FindById(sessions, id)
  {
    SaveBelowCapKeepsAll(sessions, record);
    var r := [record] + sessions;
    assert r[1..] == sessions;
  }

  /** The newest session heads every non-empty history page. */
  lemma HistoryStartsWithLatest(sessions: seq<SessionRecord>, record: SessionRecord, limit: int)
    requires limit >= 1
    ensures History(Save(sessions, record), limit)[0] == record
  {
    var r := Save(sessions, record);
    assert |History(r, limit)| >= 1;
  }

  /** The default page is the 20 newest sessions, or all of them. */
  lemma DefaultHistory(sessions: seq<SessionRecord>)
    ensures History(sessions, DefaultHistoryLimit)
              == if |sessions| <= 20 then sessions else sessions[..20]
  {}

  /** The module-level `sessions` array with its three operations. */
  class LocalStore {
    var sessions: seq<SessionRecord>

    ghost predicate Valid()
      reads this
    {
      Bounded(sessions)
    }

    constructor ()
      ensures Valid() && sessions == []
    {
      sessions := [];
    }

    method SaveLocalSession(record: SessionRecord)
      requires Valid()
      modifies this
      ensures Valid()
      ensures sessions == Save(old(sessions), record)
    {
      sessions := Save(sessions, record);
      SaveKeepsBound(old(sessions), record);
    }

    method GetLocalHistory(limit: int) returns (r: seq<SessionRecord>)
      ensures r == History(sessions, limit)
    {
      r := History(sessions, limit);
    }

    method GetLocalSessionById(id: string) returns (r: Option<SessionRecord>)
      ensures r == FindById(sessions, id)
    {
      r := FindById(sessions, id);
    }
  }
}
