/** What every run of add attempts keeps, whatever fails, and what retrying an add comes to. */
module WorklogFacts {
  import opened Oracle
  import opened Worklogs

  /** The draft's property records its own key and messages, and its key is theirs. */
  predicate Genuine(d: Draft) {
    d.key == KeyOf(d.issue, multiset(d.ids)) && d.property == Some(Property(d.key, d.ids)) && d.ids != []
  }

  /** A worklog unjira added. */
  predicate Known(w: Worklog) {
    Ours(w, w.issue)
  }

  /** Its key is that of its issue and messages. */
  predicate KeyTrue(w: Worklog) {
    Known(w) ==> w.property.value.key == KeyOf(w.issue, multiset(w.property.value.ids)) && w.property.value.ids != []
  }

  /** Two worklogs both record a message. */
  predicate ShareMessage(v: Worklog, w: Worklog) {
    Known(v) && Known(w) && exists m :: m in v.property.value.ids && m in w.property.value.ids
  }

  /** At most one worklog per id and per key, and no message's time twice on one issue. */
  ghost predicate OnePerKey(ws: seq<Worklog>) {
    forall i, j :: 0 <= i < j < |ws| ==> Apart(ws[i], ws[j])
  }

  predicate Apart(v: Worklog, w: Worklog) {
    && v.id != w.id
    && (Known(v) && Known(w) ==> v.property.value.key != w.property.value.key)
    && (v.issue == w.issue ==> !ShareMessage(v, w))
  }

  /** w is the worklog `at` names and it records m. */
  predicate Records(w: Worklog, m: string, at: Marker) {
    w.id == at.id && w.issue == at.issue && Known(w) && m in w.property.value.ids
  }

  /** Every marker points to a worklog of that issue recording the message. */
  ghost predicate MarkersPoint(s: State) {
    forall m :: Logged(s.markers, m) ==> exists w :: w in s.worklogs && Records(w, m, s.markers[m].value)
  }

  ghost predicate Inv(s: State) {
    OnePerKey(s.worklogs) && (forall w :: w in s.worklogs ==> KeyTrue(w)) && MarkersPoint(s)
  }

  /** Nothing was taken back: worklogs only added, no marker moved or cleared. */
  ghost predicate Onward(s: State, t: State) {
    && |s.worklogs| <= |t.worklogs| && t.worklogs[..|s.worklogs|] == s.worklogs
    && s.markers.Keys == t.markers.Keys
    && forall m :: Logged(s.markers, m) ==> t.markers[m] == s.markers[m]
  }

  lemma {:induction false} LastCarryingExactly(ws: seq<Worklog>, issue: string, key: Key)
    ensures var r := LastCarrying(ws, issue, key);
            && (r.Some? ==> exists w :: w in ws && Carries(w, issue, key) && w.id == r.value)
            && (r.None? ==> forall w :: w in ws ==> !Carries(w, issue, key))
  {
    if ws != [] {
      LastCarryingExactly(ws[..|ws| - 1], issue, key);
      assert ws == ws[..|ws| - 1] + [ws[|ws| - 1]];
    }
  }

  /** The worklog an attempt finds records exactly the draft's messages. */
  lemma FoundRecords(ws: seq<Worklog>, d: Draft)
    requires Genuine(d) && (forall w :: w in ws ==> KeyTrue(w)) && LastCarrying(ws, d.issue, d.key).Some?
    ensures exists w :: w in ws && RecordsDraft(w, d, LastCarrying(ws, d.issue, d.key).value)
  {
    LastCarryingExactly(ws, d.issue, d.key);
    var w :| w in ws && Carries(w, d.issue, d.key) && w.id == LastCarrying(ws, d.issue, d.key).value;
    SameMessages(w.property.value.ids, d.ids);
    assert RecordsDraft(w, d, w.id);
  }

  lemma SameMessages(a: seq<string>, b: seq<string>)
    requires multiset(a) == multiset(b)
    ensures forall m :: m in a <==> m in b
  {
    assert forall m :: m in a <==> m in multiset(a);
    assert forall m :: m in b <==> m in multiset(b);
  }

  /** w, under that id, is the draft's worklog. */
  predicate RecordsDraft(w: Worklog, d: Draft, id: nat) {
    Carries(w, d.issue, d.key) && w.id == id && forall m :: m in d.ids ==> Records(w, m, Marker(d.issue, id))
  }

  lemma MarkedPoint(s: State, d: Draft, w: Worklog, id: nat)
    requires MarkersPoint(s) && w in s.worklogs && RecordsDraft(w, d, id)
    ensures MarkersPoint(s.(markers := Marked(s.markers, d.ids, Marker(d.issue, id))))
  {
    var t := s.(markers := Marked(s.markers, d.ids, Marker(d.issue, id)));
    forall m | Logged(t.markers, m) ensures exists v :: v in t.worklogs && Records(v, m, t.markers[m].value) {
      if m in d.ids {
        assert Records(w, m, t.markers[m].value);
      } else {
        assert Logged(s.markers, m);
      }
    }
  }

  /** Recording a draft in its worklog keeps the invariant. */
  lemma RecordKeeps(s: State, d: Draft, id: nat, fate: Fate)
    requires Inv(s) && exists w :: w in s.worklogs && RecordsDraft(w, d, id)
    ensures var a := Record(s, d, Marker(d.issue, id), fate); Inv(a.state) && Onward(s, a.state)
  {
    var w :| w in s.worklogs && RecordsDraft(w, d, id);
    MarkedPoint(s, d, w, id);
    if !fate.FailsBefore? && AllMarkable(s.markers, d.ids, Marker(d.issue, id)) {
      forall m | Logged(s.markers, m) ensures Marked(s.markers, d.ids, Marker(d.issue, id))[m] == s.markers[m] {
        if m in d.ids {
          var i :| 0 <= i < |d.ids| && d.ids[i] == m;
          assert Markable(s.markers, d.ids[i], Marker(d.issue, id));
        }
      }
    }
  }

  /** Adding the draft's worklog, under a key and messages not yet there, keeps the invariant. */
  lemma PostKeeps(s: State, d: Draft, id: nat)
    requires Inv(s) && Genuine(d) && FreshID(s, id)
    requires LastCarrying(s.worklogs, d.issue, d.key).None? && !AnyOverlap(s.worklogs, d.issue, d.key, d.ids)
    ensures Inv(Posted(s, d, id)) && Onward(s, Posted(s, d, id))
    ensures exists w :: w in Posted(s, d, id).worklogs && RecordsDraft(w, d, id)
  {
    var ws, t, new_ := s.worklogs, Posted(s, d, id), Worklog(id, d.issue, d.property);
    LastCarryingExactly(ws, d.issue, d.key);
    assert t.worklogs[|ws|] == new_;
    assert RecordsDraft(new_, d, id);
    forall i | 0 <= i < |ws| ensures Apart(ws[i], new_) {
      assert !Carries(ws[i], d.issue, d.key) && !Overlaps(ws[i], d.issue, d.key, d.ids);
      assert KeyTrue(ws[i]);
    }
  }

  lemma OnwardTransitive(s: State, t: State, u: State)
    requires Onward(s, t) && Onward(t, u)
    ensures Onward(s, u)
  {
    assert u.worklogs[..|s.worklogs|] == t.worklogs[..|s.worklogs|];
  }

  lemma PostAndRecordKeep(s: State, d: Draft, id: nat, fate: Fate)
    requires Inv(s) && Genuine(d) && FreshID(s, id)
    requires LastCarrying(s.worklogs, d.issue, d.key).None? && !AnyOverlap(s.worklogs, d.issue, d.key, d.ids)
    ensures var a := Record(Posted(s, d, id), d, Marker(d.issue, id), fate); Inv(a.state) && Onward(s, a.state)
  {
    PostKeeps(s, d, id);
    RecordKeeps(Posted(s, d, id), d, id, fate);
    OnwardTransitive(s, Posted(s, d, id), Record(Posted(s, d, id), d, Marker(d.issue, id), fate).state);
  }

  lemma FindAndRecordKeep(s: State, d: Draft, fate: Fate)
    requires Inv(s) && Genuine(d) && LastCarrying(s.worklogs, d.issue, d.key).Some?
    ensures var a := Record(s, d, Marker(d.issue, LastCarrying(s.worklogs, d.issue, d.key).value), fate);
            Inv(a.state) && Onward(s, a.state)
  {
    FoundRecords(s.worklogs, d);
    RecordKeeps(s, d, LastCarrying(s.worklogs, d.issue, d.key).value, fate);
  }

  /** One attempt, whatever fails, keeps the invariant and takes nothing back. */
  lemma AddedKeeps(s: State, d: Draft, f: Fates, id: nat)
    requires Inv(s) && Genuine(d) && FreshID(s, id)
    ensures Inv(Added(s, d, f, id).state) && Onward(s, Added(s, d, f, id).state)
  {
    if f.logged && !SomeLogged(s.markers, d.ids) && f.find && !AnyOverlap(s.worklogs, d.issue, d.key, d.ids) {
      if LastCarrying(s.worklogs, d.issue, d.key).Some? {
        FindAndRecordKeep(s, d, f.mark);
      } else if f.add.FailsAfter? {
        PostKeeps(s, d, id);
      } else if f.add.Works? {
        PostAndRecordKeep(s, d, id, f.mark);
      }
    }
  }

  /** Every message of the draft is marked in one worklog under the draft's key. */
  ghost predicate Finished(s: State, d: Draft) {
    exists w :: w in s.worklogs && FinishedIn(s, d, w)
  }

  predicate FinishedIn(s: State, d: Draft, w: Worklog) {
    Carries(w, d.issue, d.key) && forall m :: m in d.ids ==> m in s.markers && s.markers[m] == Some(Marker(d.issue, w.id))
  }

  lemma RecordFinishes(s: State, d: Draft, id: nat, fate: Fate)
    requires exists w :: w in s.worklogs && RecordsDraft(w, d, id)
    ensures var a := Record(s, d, Marker(d.issue, id), fate); a.ok || a.state != s ==> Finished(a.state, d)
  {
    var w :| w in s.worklogs && RecordsDraft(w, d, id);
    var a := Record(s, d, Marker(d.issue, id), fate);
    if a.ok || a.state != s {
      forall m | m in d.ids ensures m in a.state.markers && a.state.markers[m] == Some(Marker(d.issue, w.id)) {
        var i :| 0 <= i < |d.ids| && d.ids[i] == m;
        assert Markable(s.markers, d.ids[i], Marker(d.issue, id));
      }
      assert FinishedIn(a.state, d, w);
    }
  }

  /** An attempt that succeeds has marked all its messages in the worklog of its key. */
  lemma SuccessMarks(s: State, d: Draft, f: Fates, id: nat)
    requires Inv(s) && Genuine(d) && FreshID(s, id) && Added(s, d, f, id).ok
    ensures Finished(Added(s, d, f, id).state, d)
  {
    var found := LastCarrying(s.worklogs, d.issue, d.key);
    if found.Some? {
      FoundRecords(s.worklogs, d);
      RecordFinishes(s, d, found.value, f.mark);
    } else {
      PostKeeps(s, d, id);
      RecordFinishes(Posted(s, d, id), d, id, f.mark);
    }
  }

  // Runs.

  /** One approval: what was approved, how its calls go, and the id the tracker would give. */
  datatype Step = Step(draft: Draft, writable: bool, fates: Fates, id: nat)

  function Run(s: State, steps: seq<Step>): State
    decreases |steps|
  {
    if steps == [] then s
    else Run(Approved(s, steps[0].draft, steps[0].writable, steps[0].fates, steps[0].id).state, steps[1..])
  }

  /** Drafts are genuine and the tracker reuses no id. */
  ghost predicate Fair(s: State, steps: seq<Step>)
    decreases |steps|
  {
    steps != [] ==>
      && Genuine(steps[0].draft) && FreshID(s, steps[0].id)
      && Fair(Approved(s, steps[0].draft, steps[0].writable, steps[0].fates, steps[0].id).state, steps[1..])
  }

  /**
   * Over any run of approvals: one worklog per key, one per message and issue, every marker
   * pointing to a worklog that records the message, and nothing recorded ever taken back.
   */
  lemma {:induction false} RunKeeps(s: State, steps: seq<Step>)
    requires Inv(s) && Fair(s, steps)
    ensures Inv(Run(s, steps)) && Onward(s, Run(s, steps))
    decreases |steps|
  {
    if steps != [] {
      var t := Approved(s, steps[0].draft, steps[0].writable, steps[0].fates, steps[0].id).state;
      if Refusal(steps[0].draft, steps[0].writable).None? {
        AddedKeeps(s, steps[0].draft, steps[0].fates, steps[0].id);
      }
      RunKeeps(t, steps[1..]);
      OnwardTransitive(s, t, Run(s, steps));
    }
  }

  /** What a success recorded is still recorded after any run. */
  lemma FinishedStays(s: State, d: Draft, steps: seq<Step>)
    requires Inv(s) && Fair(s, steps) && Finished(s, d)
    ensures Finished(Run(s, steps), d)
  {
    RunKeeps(s, steps);
    var t := Run(s, steps);
    var w :| w in s.worklogs && FinishedIn(s, d, w);
    assert w in t.worklogs[..|s.worklogs|];
    forall m | m in d.ids ensures m in t.markers && t.markers[m] == Some(Marker(d.issue, w.id)) {
      assert Logged(s.markers, m);
    }
    assert FinishedIn(t, d, w);
  }

  // Retrying one draft.

  /** Nothing stands in the way: the messages are ledgered, unlogged, and under no other key. */
  ghost predicate Open(s: State, d: Draft) {
    && (forall m :: m in d.ids ==> m in s.markers && s.markers[m] == None)
    && !AnyOverlap(s.worklogs, d.issue, d.key, d.ids)
  }

  /** How many worklogs there will be once the draft has one. */
  function Settled(s: State, d: Draft): nat {
    |s.worklogs| + if LastCarrying(s.worklogs, d.issue, d.key).Some? then 0 else 1
  }

  lemma FinishedRefuses(s: State, d: Draft, f: Fates, id: nat)
    requires Genuine(d) && Finished(s, d)
    ensures Added(s, d, f, id) == Attempt(s, false)
  {
    assert d.ids[0] in d.ids;
    assert Logged(s.markers, d.ids[0]);
  }

  lemma FinishedSettled(s: State, d: Draft)
    requires Finished(s, d)
    ensures Settled(s, d) == |s.worklogs|
  {
    LastCarryingExactly(s.worklogs, d.issue, d.key);
  }

  lemma PostedCarries(s: State, d: Draft, id: nat)
    requires Genuine(d) && !AnyOverlap(s.worklogs, d.issue, d.key, d.ids)
    ensures LastCarrying(Posted(s, d, id).worklogs, d.issue, d.key) == Some(id)
    ensures !AnyOverlap(Posted(s, d, id).worklogs, d.issue, d.key, d.ids)
  {
    var t := Posted(s, d, id).worklogs;
    assert t[|t| - 1] == Worklog(id, d.issue, d.property);
    forall i | 0 <= i < |t| ensures !Overlaps(t[i], d.issue, d.key, d.ids) {
      if i < |s.worklogs| { assert t[i] == s.worklogs[i]; }
    }
  }

  lemma OpenMarkable(s: State, d: Draft, at: Marker)
    requires Open(s, d)
    ensures AllMarkable(s.markers, d.ids, at) && !SomeLogged(s.markers, d.ids)
  {
    forall i | 0 <= i < |d.ids| ensures Markable(s.markers, d.ids[i], at) && !Logged(s.markers, d.ids[i]) {
      assert d.ids[i] in d.ids;
    }
  }

  /** An attempt at an open draft leaves it open or finishes it, and the same number of worklogs to come to. */
  lemma AttemptMoves(s: State, d: Draft, f: Fates, id: nat)
    requires Inv(s) && Genuine(d) && FreshID(s, id) && Open(s, d)
    ensures var t := Added(s, d, f, id).state; (Open(t, d) || Finished(t, d)) && Settled(t, d) == Settled(s, d)
    ensures Added(s, d, HEALTHY, id).ok
  {
    OpenMarkable(s, d, Marker(d.issue, id));
    var found := LastCarrying(s.worklogs, d.issue, d.key);
    if found.Some? {
      OpenMarkable(s, d, Marker(d.issue, found.value));
      FoundRecords(s.worklogs, d);
      RecordFinishes(s, d, found.value, f.mark);
    } else {
      PostKeeps(s, d, id);
      PostedCarries(s, d, id);
      RecordFinishes(Posted(s, d, id), d, id, f.mark);
    }
  }

  /** Attempts at one draft, each with its own failures. */
  function Retried(s: State, d: Draft, tries: seq<(Fates, nat)>): State
    decreases |tries|
  {
    if tries == [] then s else Retried(Added(s, d, tries[0].0, tries[0].1).state, d, tries[1..])
  }

  ghost predicate FairTries(s: State, d: Draft, tries: seq<(Fates, nat)>)
    decreases |tries|
  {
    tries != [] ==> FreshID(s, tries[0].1) && FairTries(Added(s, d, tries[0].0, tries[0].1).state, d, tries[1..])
  }

  lemma {:induction false} RetriesStay(s: State, d: Draft, tries: seq<(Fates, nat)>)
    requires Inv(s) && Genuine(d) && FairTries(s, d, tries) && (Open(s, d) || Finished(s, d))
    ensures var t := Retried(s, d, tries); Inv(t) && (Open(t, d) || Finished(t, d)) && Settled(t, d) == Settled(s, d)
    decreases |tries|
  {
    if tries != [] {
      AddedKeeps(s, d, tries[0].0, tries[0].1);
      if Finished(s, d) {
        FinishedRefuses(s, d, tries[0].0, tries[0].1);
      } else {
        AttemptMoves(s, d, tries[0].0, tries[0].1);
      }
      RetriesStay(Added(s, d, tries[0].0, tries[0].1).state, d, tries[1..]);
    }
  }

  /**
   * However often and however an open draft's attempts failed, one more that meets no failure
   * leaves its messages marked in one worklog, and the tracker with at most one worklog more
   * than before the first attempt.
   */
  lemma RetryConverges(s: State, d: Draft, tries: seq<(Fates, nat)>, id: nat)
    requires Inv(s) && Genuine(d) && FairTries(s, d, tries) && Open(s, d) && FreshID(Retried(s, d, tries), id)
    ensures var t := Added(Retried(s, d, tries), d, HEALTHY, id).state;
            Inv(t) && Finished(t, d) && |t.worklogs| == Settled(s, d)
  {
    RetriesStay(s, d, tries);
    var t := Retried(s, d, tries);
    AddedKeeps(t, d, HEALTHY, id);
    if Open(t, d) {
      AttemptMoves(t, d, HEALTHY, id);
      SuccessMarks(t, d, HEALTHY, id);
    } else {
      FinishedRefuses(t, d, HEALTHY, id);
    }
    FinishedSettled(Added(t, d, HEALTHY, id).state, d);
  }

  // What the protocol does not promise.

  /** Some message's time is in two worklogs. */
  ghost predicate LoggedTwice(s: State) {
    exists i, j :: 0 <= i < j < |s.worklogs| && ShareMessage(s.worklogs[i], s.worklogs[j])
  }

  /** Two worklogs sharing a message, one of them new unless both were there. */
  lemma SharedBefore(s: State, t: State, i: nat, j: nat)
    requires i < j < |t.worklogs| == |s.worklogs| + 1 && t.worklogs[..|s.worklogs|] == s.worklogs
    requires ShareMessage(t.worklogs[i], t.worklogs[j])
    ensures j == |s.worklogs| || LoggedTwice(s)
  {
    if j < |s.worklogs| {
      assert ShareMessage(s.worklogs[i], s.worklogs[j]);
    }
  }

  /** A worklog of another issue records one of the draft's messages. */
  predicate HeldElsewhere(s: State, d: Draft) {
    exists i :: 0 <= i < |s.worklogs| && HeldBy(s.worklogs[i], d)
  }

  predicate HeldBy(w: Worklog, d: Draft) {
    Known(w) && w.issue != d.issue && exists m :: m in w.property.value.ids && m in d.ids
  }

  /**
   * The attempt adds a worklog: the ledger and the tracker are read and hold nothing against
   * it, no worklog of its key is found, and the tracker takes the new one.
   */
  predicate Adds(s: State, d: Draft, f: Fates) {
    && f.logged && !SomeLogged(s.markers, d.ids)
    && f.find && !AnyOverlap(s.worklogs, d.issue, d.key, d.ids) && LastCarrying(s.worklogs, d.issue, d.key).None?
    && !f.add.FailsBefore?
  }

  lemma AddsExactly(s: State, d: Draft, f: Fates, id: nat)
    ensures Added(s, d, f, id).state.worklogs == s.worklogs + if Adds(s, d, f) then [Worklog(id, d.issue, d.property)] else []
  {
  }

  lemma TwiceStays(s: State, t: State)
    requires LoggedTwice(s) && |s.worklogs| <= |t.worklogs| && t.worklogs[..|s.worklogs|] == s.worklogs
    ensures LoggedTwice(t)
  {
    var i, j :| 0 <= i < j < |s.worklogs| && ShareMessage(s.worklogs[i], s.worklogs[j]);
    assert ShareMessage(t.worklogs[i], t.worklogs[j]);
  }

  /** A new worklog shares a message with an older one exactly when that is another issue's and records one of the draft's. */
  lemma NewShares(s: State, t: State, d: Draft, id: nat)
    requires Genuine(d) && t.worklogs == s.worklogs + [Worklog(id, d.issue, d.property)] && OnePerKey(t.worklogs)
    ensures LoggedTwice(t) <==> LoggedTwice(s) || HeldElsewhere(s, d)
  {
    var n := |s.worklogs|;
    forall i | 0 <= i < n ensures ShareMessage(s.worklogs[i], t.worklogs[n]) <==> HeldBy(s.worklogs[i], d) {
      assert Apart(t.worklogs[i], t.worklogs[n]);
    }
    if HeldElsewhere(s, d) {
      var i :| 0 <= i < n && HeldBy(s.worklogs[i], d);
      assert ShareMessage(t.worklogs[i], t.worklogs[n]);
    }
    if LoggedTwice(s) { TwiceStays(s, t); }
    if LoggedTwice(t) {
      var i, j :| 0 <= i < j < |t.worklogs| && ShareMessage(t.worklogs[i], t.worklogs[j]);
      SharedBefore(s, t, i, j);
    }
  }

  /**
   * An attempt logs some time twice exactly when it adds a worklog while another issue's
   * worklog records one of its messages: FindWorklog reads only the draft's own issue.
   */
  lemma LoggedTwiceExactly(s: State, d: Draft, f: Fates, id: nat)
    requires Inv(s) && Genuine(d) && FreshID(s, id)
    ensures LoggedTwice(Added(s, d, f, id).state) <==> LoggedTwice(s) || (Adds(s, d, f) && HeldElsewhere(s, d))
  {
    var t := Added(s, d, f, id).state;
    AddedKeeps(s, d, f, id);
    AddsExactly(s, d, f, id);
    if Adds(s, d, f) {
      NewShares(s, t, d, id);
    } else {
      assert t.worklogs == s.worklogs;
    }
  }

  /** Approving the step logs some time twice: it gets to the tracker, adds, and another issue holds one of its messages. */
  predicate Doubles(s: State, step: Step) {
    Refusal(step.draft, step.writable).None? && Adds(s, step.draft, step.fates) && HeldElsewhere(s, step.draft)
  }

  /** The k-th step of a run does, in the state the steps before it leave. */
  ghost predicate DoublesAt(s: State, steps: seq<Step>, k: int) {
    0 <= k < |steps| && Doubles(Run(s, steps[..k]), steps[k])
  }

  ghost predicate SomeDoubles(s: State, steps: seq<Step>) {
    exists k :: DoublesAt(s, steps, k)
  }

  function Next(s: State, step: Step): State {
    Approved(s, step.draft, step.writable, step.fates, step.id).state
  }

  lemma StepLogsTwice(s: State, step: Step)
    requires Inv(s) && Genuine(step.draft) && FreshID(s, step.id)
    ensures LoggedTwice(Next(s, step)) <==> LoggedTwice(s) || Doubles(s, step)
    ensures Inv(Next(s, step))
  {
    if Refusal(step.draft, step.writable).None? {
      AddedKeeps(s, step.draft, step.fates, step.id);
      LoggedTwiceExactly(s, step.draft, step.fates, step.id);
    }
  }

  /** The steps before the k-th, with the first of them taken. */
  lemma DoublesLater(s: State, steps: seq<Step>, k: nat)
    requires steps != []
    ensures DoublesAt(s, steps, k + 1) <==> DoublesAt(Next(s, steps[0]), steps[1..], k)
    ensures DoublesAt(s, steps, 0) <==> Doubles(s, steps[0])
  {
    assert steps[..0] == [];
    if k + 1 < |steps| {
      assert steps[..k + 1][1..] == steps[1..][..k] && steps[..k + 1][0] == steps[0];
    }
  }

  lemma SomeDoublesStep(s: State, steps: seq<Step>)
    requires steps != []
    ensures SomeDoubles(s, steps) <==> Doubles(s, steps[0]) || SomeDoubles(Next(s, steps[0]), steps[1..])
  {
    DoublesLater(s, steps, 0);
    if k :| DoublesAt(s, steps, k) {
      if k > 0 { DoublesLater(s, steps, k - 1); }
    }
    if k :| DoublesAt(Next(s, steps[0]), steps[1..], k) {
      DoublesLater(s, steps, k);
    }
  }

  /** A run logs some time twice exactly when one of its approvals adds a worklog while another issue holds one of its messages. */
  lemma {:induction false} RunLogsTwiceExactly(s: State, steps: seq<Step>)
    requires Inv(s) && Fair(s, steps)
    ensures LoggedTwice(Run(s, steps)) <==> LoggedTwice(s) || SomeDoubles(s, steps)
    decreases |steps|
  {
    if steps != [] {
      StepLogsTwice(s, steps[0]);
      RunLogsTwiceExactly(Next(s, steps[0]), steps[1..]);
      SomeDoublesStep(s, steps);
    }
  }

  /** And it happens: an add whose mark was lost, then the same message re-attributed to another issue. */
  lemma LoggedTwiceHappens()
    ensures exists s, d, e, f, i, j ::
              Inv(s) && Genuine(d) && Genuine(e) && !LoggedTwice(s)
              && LoggedTwice(Added(Added(s, d, f, i).state, e, HEALTHY, j).state)
  {
    var s := State([], map["m" := None]);
    var p, q := KeyOf("A-1", multiset(["m"])), KeyOf("B-1", multiset(["m"]));
    var d := Draft("A-1", p, ["m"], 60, Some(Property(p, ["m"])));
    var e := Draft("B-1", q, ["m"], 60, Some(Property(q, ["m"])));
    var lost := HEALTHY.(mark := FailsBefore);
    var t := Added(s, d, lost, 1).state;
    assert t == Posted(s, d, 1);
    assert Worklog(1, "A-1", d.property) in t.worklogs;
    assert Inv(s) && FreshID(s, 1) && FreshID(t, 2);
    AddedKeeps(s, d, lost, 1);
    assert Open(t, e);
    OpenMarkable(t, e, Marker("B-1", 2));
    LastCarryingExactly(t.worklogs, "B-1", q);
    var u := Added(t, e, HEALTHY, 2).state;
    assert u.worklogs == t.worklogs + [Worklog(2, "B-1", e.property)];
    assert ["m"][0] in ["m"];
    assert ShareMessage(u.worklogs[0], u.worklogs[1]);
    assert LoggedTwice(u);
  }
}
