/**
 * Adding a worklog: one tracker write and one ledger mark, either of which may fail before or
 * after taking effect. A failed add is never retried by itself: it is approved again.
 */
module Worklogs {
  import opened Oracle

  /**
   * Identifies one write. KeyOf stands for a hash of the issue and the sorted message ids,
   * taken to be collision-free; NoKey for the empty string.
   */
  datatype Key = NoKey | KeyOf(issue: string, ids: multiset<string>)

  /** What unjira records on a worklog it adds. */
  datatype Property = Property(key: Key, ids: seq<string>)

  /** A worklog the tracker holds. Another tool's carries no property. */
  datatype Worklog = Worklog(id: nat, issue: string, property: Option<Property>)

  /** Where a message is recorded as logged. */
  datatype Marker = Marker(issue: string, id: nat)

  /** An add awaiting approval. */
  datatype Draft = Draft(issue: string, key: Key, ids: seq<string>, seconds: int, property: Option<Property>)

  /** How one call goes. */
  datatype Fate = Works | FailsBefore | FailsAfter

  /** How each call of one attempt goes. The first two only read. */
  datatype Fates = Fates(logged: bool, find: bool, add: Fate, mark: Fate)

  const HEALTHY := Fates(true, true, Works, Works)

  datatype Status = Proposed | Applied | Refused

  /** What the tracker holds on record, in the order added, and each ledgered message's marker. */
  datatype State = State(worklogs: seq<Worklog>, markers: map<string, Option<Marker>>)

  /** Why an add fails. */
  datatype Why =
    | NoIssue | NoMessages | NoIdempotencyKey | BelowASecond | NotWritable
    | CallFailedAt(call: string) | Stale(message: string, held: Marker) | LoggedUnderAnotherKey
    | UnknownMessage(message: string) | LoggedElsewhere(message: string, held: Marker)

  datatype Result<+T> = Ok(value: T) | Err(why: Why)

  // Reading the tracker and the ledger.

  /** The property FindWorklog reads off a worklog of the issue, if it is unjira's. */
  predicate Ours(w: Worklog, issue: string) {
    w.issue == issue && w.property.Some? && w.property.value.key != NoKey
  }

  /** w is the worklog an earlier attempt at this key left. */
  predicate Carries(w: Worklog, issue: string, key: Key) {
    Ours(w, issue) && w.property.value.key == key
  }

  /** w holds some of these messages under another key. */
  predicate Overlaps(w: Worklog, issue: string, key: Key, ids: seq<string>) {
    Ours(w, issue) && w.property.value.key != key && exists m :: m in w.property.value.ids && m in ids
  }

  /** The last worklog of the issue under the key. */
  function LastCarrying(ws: seq<Worklog>, issue: string, key: Key): Option<nat> {
    if ws == [] then None
    else if Carries(ws[|ws| - 1], issue, key) then Some(ws[|ws| - 1].id)
    else LastCarrying(ws[..|ws| - 1], issue, key)
  }

  predicate AnyOverlap(ws: seq<Worklog>, issue: string, key: Key, ids: seq<string>) {
    exists i :: 0 <= i < |ws| && Overlaps(ws[i], issue, key, ids)
  }

  method FindWorklog(ws: seq<Worklog>, issue: string, key: Key, ids: seq<string>) returns (r: Result<Option<nat>>)
    ensures r == if AnyOverlap(ws, issue, key, ids) then Err(LoggedUnderAnotherKey) else Ok(LastCarrying(ws, issue, key))
  {
    var found: Option<nat> := None;
    var overlaps := [];
    for i := 0 to |ws|
      invariant found == LastCarrying(ws[..i], issue, key)
      invariant overlaps != [] <==> AnyOverlap(ws[..i], issue, key, ids)
    {
      assert ws[..i + 1][..i] == ws[..i];
      assert AnyOverlap(ws[..i], issue, key, ids) ==> AnyOverlap(ws[..i + 1], issue, key, ids);
      if Carries(ws[i], issue, key) {
        found := Some(ws[i].id);
      } else if Overlaps(ws[i], issue, key, ids) {
        overlaps := overlaps + [ws[i].id];
        assert Overlaps(ws[..i + 1][i], issue, key, ids);
      }
    }
    assert ws[..|ws|] == ws;
    r := if overlaps != [] then Err(LoggedUnderAnotherKey) else Ok(found);
  }

  /** The message is ledgered and already logged somewhere. */
  predicate Logged(markers: map<string, Option<Marker>>, m: string) {
    m in markers && markers[m].Some?
  }

  predicate SomeLogged(markers: map<string, Option<Marker>>, ids: seq<string>) {
    exists i :: 0 <= i < |ids| && Logged(markers, ids[i])
  }

  /** The message can be recorded as logged there. */
  predicate Markable(markers: map<string, Option<Marker>>, m: string, at: Marker) {
    m in markers && (markers[m] == None || markers[m] == Some(at))
  }

  predicate AllMarkable(markers: map<string, Option<Marker>>, ids: seq<string>, at: Marker) {
    forall i :: 0 <= i < |ids| ==> Markable(markers, ids[i], at)
  }

  /** Every one of the messages logged there, nothing else changed. */
  function Marked(markers: map<string, Option<Marker>>, ids: seq<string>, at: Marker): map<string, Option<Marker>> {
    map m | m in markers :: if m in ids then Some(at) else markers[m]
  }

  // One attempt, as a function of the state it starts from.

  /** The state an attempt ends in and whether it succeeded. */
  datatype Attempt = Attempt(state: State, ok: bool)

  /** Recording the worklog `at`, with an outcome the fate decides. */
  function Record(s: State, d: Draft, at: Marker, fate: Fate): Attempt {
    if fate.FailsBefore? || !AllMarkable(s.markers, d.ids, at) then Attempt(s, false)
    else Attempt(s.(markers := Marked(s.markers, d.ids, at)), fate.Works?)
  }

  /** The tracker with the draft's worklog added. */
  function Posted(s: State, d: Draft, id: nat): State {
    s.(worklogs := s.worklogs + [Worklog(id, d.issue, d.property)])
  }

  /** No worklog has this id yet. */
  predicate FreshID(s: State, id: nat) {
    forall i :: 0 <= i < |s.worklogs| ==> s.worklogs[i].id != id
  }

  /** One attempt at the add. `id` is what the tracker would call a new worklog. */
  function Added(s: State, d: Draft, f: Fates, id: nat): Attempt {
    if !f.logged || SomeLogged(s.markers, d.ids) || !f.find || AnyOverlap(s.worklogs, d.issue, d.key, d.ids)
    then Attempt(s, false)
    else
      var found := LastCarrying(s.worklogs, d.issue, d.key);
      if found.Some? then Record(s, d, Marker(d.issue, found.value), f.mark)
      else if f.add.FailsBefore? then Attempt(s, false)
      else if f.add.FailsAfter? then Attempt(Posted(s, d, id), false)
      else Record(Posted(s, d, id), d, Marker(d.issue, id), f.mark)
  }

  /** The checks that come before any call. */
  function Refusal(d: Draft, writable: bool): Option<Why> {
    if d.issue == "" then Some(NoIssue)
    else if d.ids == [] then Some(NoMessages)
    else if d.key == NoKey then Some(NoIdempotencyKey)
    else if d.seconds < 1 then Some(BelowASecond)
    else if !writable then Some(NotWritable)
    else None
  }

  /** What approving a draft does to the state. */
  function Approved(s: State, d: Draft, writable: bool, f: Fates, id: nat): Attempt {
    if Refusal(d, writable).Some? then Attempt(s, false) else Added(s, d, f, id)
  }

  /** The tracker, the ledger and the action rows, as an apply changes them. */
  class Applier {
    var worklogs: seq<Worklog>
    var markers: map<string, Option<Marker>>
    var statuses: map<nat, Status>

    constructor (s: State)
      ensures Now() == s && statuses == map[]
    {
      worklogs, markers, statuses := s.worklogs, s.markers, map[];
    }

    function Now(): State
      reads this
    {
      State(worklogs, markers)
    }

    /** In one transaction: every message recorded, or none and the first that cannot be named. */
    method MarkWorklogged(at: Marker, ids: seq<string>, fate: Fate) returns (why: Option<Why>)
      modifies this`markers
      ensures fate.FailsBefore? || !AllMarkable(old(markers), ids, at) ==> markers == old(markers) && why.Some?
      ensures !fate.FailsBefore? && AllMarkable(old(markers), ids, at) ==>
                markers == Marked(old(markers), ids, at) && (why.None? <==> fate.Works?)
    {
      if fate.FailsBefore? {
        return Some(CallFailedAt("mark"));
      }
      var draft := markers;
      for i := 0 to |ids|
        invariant AllMarkable(markers, ids[..i], at) && draft == Marked(markers, ids[..i], at)
        invariant markers == old(markers)
      {
        assert ids[..i + 1] == ids[..i] + [ids[i]];
        assert Markable(draft, ids[i], at) <==> Markable(markers, ids[i], at);
        if ids[i] !in draft {
          return Some(UnknownMessage(ids[i]));
        } else if draft[ids[i]] != None && draft[ids[i]] != Some(at) {
          return Some(LoggedElsewhere(ids[i], draft[ids[i]].value));
        }
        draft := draft[ids[i] := Some(at)];
      }
      assert ids[..|ids|] == ids;
      markers := draft;
      why := if fate.Works? then None else Some(CallFailedAt("mark"));
    }

    /** The first of the messages already logged, read off the ledger. */
    method CheckNotLogged(ids: seq<string>, readable: bool) returns (why: Option<Why>)
      ensures why.None? <==> readable && !SomeLogged(markers, ids)
    {
      if !readable {
        return Some(CallFailedAt("logged"));
      }
      for i := 0 to |ids|
        invariant !SomeLogged(markers, ids[..i])
      {
        assert ids[..i + 1] == ids[..i] + [ids[i]];
        if Logged(markers, ids[i]) {
          return Some(Stale(ids[i], markers[ids[i]].value));
        }
      }
      assert ids[..|ids|] == ids;
      why := None;
    }

    method AddWorklog(d: Draft, f: Fates, id: nat) returns (why: Option<Why>)
      modifies this`worklogs, this`markers
      ensures Attempt(Now(), why.None?) == Added(old(Now()), d, f, id)
    {
      why := CheckNotLogged(d.ids, f.logged);
      if why.Some? {
        return;
      }
      if !f.find {
        return Some(CallFailedAt("find"));
      }
      var r := FindWorklog(worklogs, d.issue, d.key, d.ids);
      if r.Err? {
        return Some(r.why);
      }
      var at := Marker(d.issue, id);
      if r.value.Some? {
        at := Marker(d.issue, r.value.value);
      } else {
        if f.add.FailsBefore? {
          return Some(CallFailedAt("add"));
        }
        worklogs := worklogs + [Worklog(id, d.issue, d.property)];
        if f.add.FailsAfter? {
          return Some(CallFailedAt("add"));
        }
      }
      why := MarkWorklogged(at, d.ids, f.mark);
    }

    /** Performs one approved add and records its outcome, which may itself fail to be recorded. */
    method Apply(action: nat, d: Draft, writable: bool, f: Fates, id: nat, status: Fate) returns (ok: bool)
      modifies this
      ensures Now() == Approved(old(Now()), d, writable, f, id).state
      ensures ok <==> Approved(old(Now()), d, writable, f, id).ok && status.Works?
      ensures statuses == if status.FailsBefore? then old(statuses) else
                old(statuses)[action := if Approved(old(Now()), d, writable, f, id).ok then Applied else Refused]
    {
      var why := Refusal(d, writable);
      if why.None? {
        why := AddWorklog(d, f, id);
      }
      if !status.FailsBefore? {
        statuses := statuses[action := if why.None? then Applied else Refused];
      }
      ok := why.None? && status.Works?;
    }
  }
}
