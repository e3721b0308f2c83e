/** The stored narratives and their event links, and the operations a transaction makes on them. */
module Links {
  import opened Events
  import opened Oracle

  const OPEN := "open"
  const SPLIT := "split"

  /** How far a narrative's history has been folded into its summary: an instant and an event id. */
  datatype Boundary = Boundary(at: int, id: nat)

  /** A narratives row. */
  datatype Row = Row(start: int, end: int, title: string, summary: string, status: string, boundary: Option<Boundary>)

  /** Who placed a member link. */
  datatype Placement = ByModel | ByIdentity | ByReviewer

  /** An event's member link: its one home, and where in the sequence of links it was made. */
  datatype Link = Link(narrative: int, position: nat, confidence: real, placed: Placement)

  /** A stored event and its row id. */
  datatype Stored = Stored(id: nat, event: Event)

  /**
   * What the store holds. `events` is in (occurred_at, id) order. A member link is unique to
   * its event, so `members` is a map. `commits` is the link high-water mark of each
   * narrative's last applied action.
   */
  datatype State = State(
    events: seq<Stored>,
    rows: map<int, Row>,
    members: map<EventKey, Link>,
    context: set<(int, EventKey)>,
    commits: map<int, nat>,
    nextSeq: nat,
    nextID: int)

  predicate Exists(s: State, k: EventKey) {
    exists i :: 0 <= i < |s.events| && s.events[i].event.key == k
  }

  function LastCommit(s: State, n: int): nat {
    if n in s.commits then s.commits[n] else 0
  }

  /** The event's link was made after its narrative's last applied action. */
  predicate Eligible(s: State, k: EventKey)
    requires k in s.members
  {
    s.members[k].position > LastCommit(s, s.members[k].narrative)
  }

  predicate IsMember(s: State, n: int, k: EventKey) {
    k in s.members && s.members[k].narrative == n
  }

  /** Some of the events are narrative n's work. */
  predicate HoldsOneOf(s: State, n: int, keys: seq<EventKey>) {
    exists k :: k in keys && IsMember(s, n, k)
  }

  /** Narrative n holds some work. */
  predicate HoldsWork(s: State, n: int) {
    exists k :: k in s.members && s.members[k].narrative == n
  }

  /**
   * What the store's schema guarantees and every pass relies on: links name stored narratives
   * and events, ids and positions are handed out in order, an event is one narrative's work or
   * its background but not both, and every background event is some narrative's work.
   */
  ghost predicate Sound(s: State) {
    && (forall k :: k in s.members ==> LinkSound(s, k))
    && (forall p :: p in s.context ==> BackgroundSound(s, p.0, p.1))
    && (forall n :: n in s.rows ==> n < s.nextID)
    && s.nextSeq > 0
  }

  predicate LinkSound(s: State, k: EventKey)
    requires k in s.members
  {
    s.members[k].narrative in s.rows && 0 < s.members[k].position < s.nextSeq && Exists(s, k)
  }

  predicate BackgroundSound(s: State, n: int, k: EventKey) {
    n in s.rows && k in s.members && s.members[k].narrative != n
  }

  /** The event can be made narrative n's work: it has no home, that home is n, or it may still move. */
  predicate Movable(s: State, n: int, k: EventKey) {
    k in s.members ==> s.members[k].narrative == n || Eligible(s, k)
  }

  /** The event made narrative n's work. */
  function Moved(s: State, n: int, k: EventKey, confidence: real, placed: Placement): State {
    if IsMember(s, n, k) then s
    else
      s.(members := s.members[k := Link(n, s.nextSeq, confidence, placed)],
         context := s.context - {(n, k)},
         nextSeq := s.nextSeq + 1)
  }

  /** Narrative n given the event as background, unless it already holds it. */
  function WithContext(s: State, n: int, k: EventKey): State {
    if IsMember(s, n, k) || (n, k) in s.context then s
    else s.(context := s.context + {(n, k)}, nextSeq := s.nextSeq + 1)
  }

  function WithoutContextOf(context: set<(int, EventKey)>, n: int): set<(int, EventKey)> {
    set p | p in context && p.0 != n
  }

  /** Narrative n marked split and its background dropped. */
  function SplitOff(s: State, n: int): State
    requires n in s.rows
  {
    s.(rows := s.rows[n := s.rows[n].(status := SPLIT)], context := WithoutContextOf(s.context, n))
  }

  /** A narrative with no work can be marked split: no other life cycle state is overwritten. */
  predicate Splittable(s: State, n: int) {
    n in s.rows && (s.rows[n].status == OPEN || s.rows[n].status == SPLIT)
  }

  /** The store, as a transaction changes it. */
  class Store {
    var events: seq<Stored>
    var rows: map<int, Row>
    var members: map<EventKey, Link>
    var context: set<(int, EventKey)>
    var commits: map<int, nat>
    var nextSeq: nat
    var nextID: int

    constructor (s: State)
      ensures Now() == s
    {
      events, rows, members, context := s.events, s.rows, s.members, s.context;
      commits, nextSeq, nextID := s.commits, s.nextSeq, s.nextID;
    }

    function Now(): State
      reads this
    {
      State(events, rows, members, context, commits, nextSeq, nextID)
    }

    /** Puts back what a failed transaction changed. */
    method Rollback(s: State)
      modifies this
      ensures Now() == s
    {
      events, rows, members, context := s.events, s.rows, s.members, s.context;
      commits, nextSeq, nextID := s.commits, s.nextSeq, s.nextID;
    }

    method InsertNarrative(row: Row) returns (id: int)
      modifies this`rows, this`nextID
      ensures id == old(nextID)
      ensures Now() == old(Now()).(rows := old(rows)[id := row], nextID := id + 1)
    {
      id := nextID;
      rows := rows[id := row];
      nextID := nextID + 1;
    }

    method ExtendNarrative(n: int, end: int, summary: string)
      requires n in rows
      modifies this`rows
      ensures Now() == old(Now()).(rows := old(rows)[n := old(rows)[n].(end := end, summary := summary)])
    {
      rows := rows[n := rows[n].(end := end, summary := summary)];
    }

    /** Fails, changing nothing, on a member its narrative's last applied action already describes. */
    method MoveMember(n: int, k: EventKey, confidence: real, placed: Placement) returns (ok: bool)
      modifies this`members, this`context, this`nextSeq
      ensures ok <==> Movable(old(Now()), n, k)
      ensures Now() == if ok then Moved(old(Now()), n, k, confidence, placed) else old(Now())
    {
      if k in members {
        if members[k].narrative == n {
          return true;
        }
        if members[k].position <= LastCommit(Now(), members[k].narrative) {
          return false;
        }
        members := members - {k};
      }
      context := context - {(n, k)};
      members := members[k := Link(n, nextSeq, confidence, placed)];
      nextSeq := nextSeq + 1;
      ok := true;
    }

    method AddContext(n: int, k: EventKey) returns (inserted: bool)
      modifies this`context, this`nextSeq
      ensures Now() == WithContext(old(Now()), n, k)
      ensures inserted <==> Now() != old(Now())
    {
      inserted := !((k in members && members[k].narrative == n) || (n, k) in context);
      if inserted {
        context := context + {(n, k)};
        nextSeq := nextSeq + 1;
      }
    }

    /** The narratives whose work includes any of the events, each once. */
    method MemberHolders(keys: seq<EventKey>) returns (holders: seq<int>)
      ensures forall n :: n in holders <==> HoldsOneOf(Now(), n, keys)
    {
      holders := [];
      for i := 0 to |keys|
        invariant forall n :: n in holders <==> HoldsOneOf(Now(), n, keys[..i])
      {
        assert keys[..i + 1] == keys[..i] + [keys[i]];
        forall n ensures HoldsOneOf(Now(), n, keys[..i + 1]) <==> HoldsOneOf(Now(), n, keys[..i]) || IsMember(Now(), n, keys[i]) {
          assert keys[i] in keys[..i + 1];
        }
        if keys[i] in members && members[keys[i]].narrative !in holders {
          holders := holders + [members[keys[i]].narrative];
        }
      }
      assert keys[..|keys|] == keys;
    }

    /** Marks the narrative split, dropping its background, if it holds no work; fails on a status it does not know. */
    method MarkSplitIfEmptied(n: int) returns (ok: bool, emptied: bool)
      modifies this`rows, this`context
      ensures ok <==> n in old(rows) && (HoldsWork(old(Now()), n) || Splittable(old(Now()), n))
      ensures emptied <==> ok && !HoldsWork(old(Now()), n)
      ensures Now() == if emptied then SplitOff(old(Now()), n) else old(Now())
    {
      if n !in rows {
        return false, false;
      }
      if exists k :: k in members && members[k].narrative == n {
        return true, false;
      }
      if rows[n].status != OPEN && rows[n].status != SPLIT {
        return false, false;
      }
      context := WithoutContextOf(context, n);
      rows := rows[n := rows[n].(status := SPLIT)];
      ok, emptied := true, true;
    }

    /** Those of the events that are no narrative's work. */
    method EventsWithoutMemberHome(keys: seq<EventKey>) returns (homeless: seq<EventKey>)
      ensures forall k :: k in homeless <==> k in keys && k !in members
    {
      homeless := [];
      for i := 0 to |keys|
        invariant forall k :: k in homeless <==> k in keys[..i] && k !in members
      {
        assert keys[..i + 1] == keys[..i] + [keys[i]];
        if keys[i] !in members {
          homeless := homeless + [keys[i]];
        }
      }
      assert keys[..|keys|] == keys;
    }
  }
}
