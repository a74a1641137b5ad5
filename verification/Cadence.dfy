/** The left-member retention tracker: the departure record kept per member,
    the time-gated reminder cadence applied to one member, and a whole
    reconciliation pass over the known members. */
module Cadence {
  import opened MemberKey

  datatype Option<T> = None | Some(value: T)

  /** One member's departure record: reminders sent so far, when the member
      was first seen gone, and when the last reminder went out. */
  datatype Departure = Departure(count: int, firstSentAt: Option<int>, lastSentAt: Option<int>)

  /** The departure map, keyed by the member's ID written in decimal. */
  type LeftMap = map<string, Departure>

  /** No reminder is sent once this many have been sent. */
  const Cap := 30
  /** Seconds between first seeing a member gone and the first reminder. */
  const FirstDelay := 60
  /** Seconds between two reminders. */
  const RepeatDelay := 86400

  /** The statuses the chat-member query can report. */
  datatype MemberStatus = Creator | Administrator | Member | Restricted | Left | Kicked

  /** The outcome of the chat-member query: it raised, or it reported a status. */
  datatype StatusReply = QueryFailed | Reported(status: MemberStatus)

  predicate Departed(s: MemberStatus) {
    s == Left || s == Kicked
  }

  /** Whether the departure map holds a record for key, and which. */
  function Lookup(m: LeftMap, key: string): Option<Departure> {
    if key in m then Some(m[key]) else None
  }

  /** Every record in the map respects the cap. */
  predicate CountsCapped(m: LeftMap) {
    forall k :: k in m ==> m[k].count <= Cap
  }

  /** The record a departed member is processed with: the stored one, or, for
      a member seen gone for the first time, a record with no reminder sent
      whose first-seen time is now. */
  function Entry(m: LeftMap, key: string, now: int): Departure {
    if key in m then m[key] else Departure(0, Some(now), None)
  }

  /** Result of the send gate: send, wait, or fail because both timestamps
      are missing and the elapsed-time subtraction raises. */
  datatype Gate = Open | Closed | Fault

  /** Whether a reminder is due now for a record under the cap: the gate
      opens exactly when the member was seen gone and either no reminder was
      sent yet and FirstDelay seconds have passed since, or RepeatDelay
      seconds have passed since the last reminder. */
  function SendGate(r: Departure, now: int): (g: Gate)
    ensures g == Fault <==> r.firstSentAt == None && r.lastSentAt == None
    ensures g == Open ==> r.firstSentAt.Some?
    ensures g == Open && r.lastSentAt == None ==> now - r.firstSentAt.value >= FirstDelay
    ensures g == Open && r.lastSentAt.Some? ==> now - r.lastSentAt.value >= RepeatDelay
    ensures (&& r.firstSentAt.Some?
             && (r.lastSentAt == None ==> now - r.firstSentAt.value >= FirstDelay)
             && (r.lastSentAt.Some? ==> now - r.lastSentAt.value >= RepeatDelay)) ==> g == Open
  {
    match (r.firstSentAt, r.lastSentAt)
    case (None, None) => Fault
    case (None, Some(_)) => Closed
    case (Some(first), None) => if now - first >= FirstDelay then Open else Closed
    case (Some(_), Some(last)) => if now - last >= RepeatDelay then Open else Closed
  }

  /** The record after a reminder was delivered at time now. */
  function Reminded(r: Departure, now: int): Departure {
    Departure(r.count + 1, r.firstSentAt, Some(now))
  }

  /** One member's turn in a pass: the departure map after the member with
      this ID was checked, given the status query's outcome and whether the
      reminder, if one was due, reached the member. Only that member's
      record can change. */
  function MemberStep(m: LeftMap, id: int, reply: StatusReply, delivered: bool, now: int): (m': LeftMap)
    ensures m' - {Key(id)} == m - {Key(id)}
    ensures reply.Reported? && !Departed(reply.status) ==> Key(id) !in m'
    ensures CountsCapped(m) ==> CountsCapped(m')
  {
    match reply
    case QueryFailed => m
    case Reported(status) =>
      if !Departed(status) then m - {Key(id)}
      else
        var r := Entry(m, Key(id), now);
        if r.count >= Cap then m
        else match SendGate(r, now)
          case Fault => m
          case Closed => m[Key(id) := r]
          case Open => m[Key(id) := if delivered then Reminded(r, now) else r]
  }

  /** The keys of the members in ids. */
  function KeysOf(ids: seq<int>): set<string> {
    set id | id in ids :: Key(id)
  }

  /** The departure map after a pass over ids, in order, starting from m.
      Records of keys that belong to no member in ids are left as they were. */
  function Reconcile(ids: seq<int>, m: LeftMap, now: int, status: int -> StatusReply, delivered: int -> bool): (m': LeftMap)
    ensures m' - KeysOf(ids) == m - KeysOf(ids)
    decreases |ids|
  {
    if ids == [] then m
    else
      var id := ids[|ids| - 1];
      var before := Reconcile(ids[..|ids| - 1], m, now, status, delivered);
      var after := MemberStep(before, id, status(id), delivered(id), now);
      assert KeysOf(ids[..|ids| - 1]) + {Key(id)} == KeysOf(ids) by {
        assert ids == ids[..|ids| - 1] + [id];
      }
      MinusMore(after, before, {Key(id)}, KeysOf(ids));
      MinusMore(before, m, KeysOf(ids[..|ids| - 1]), KeysOf(ids));
      after
  }

  /** A pass over one more member is a pass followed by that member's turn. */
  lemma ReconcileExtend(ids: seq<int>, i: nat, m: LeftMap, now: int,
                        status: int -> StatusReply, delivered: int -> bool)
    requires i < |ids|
    ensures Reconcile(ids[..i + 1], m, now, status, delivered)
         == MemberStep(Reconcile(ids[..i], m, now, status, delivered), ids[i], status(ids[i]), delivered(ids[i]), now)
  {
    assert ids[..i + 1][..i] == ids[..i];
  }

  /** Two maps that agree outside S agree outside any larger T. */
  lemma MinusMore(a: LeftMap, b: LeftMap, S: set<string>, T: set<string>)
    requires a - S == b - S && S <= T
    ensures a - T == b - T
  {
    forall k | k !in T ensures Lookup(a, k) == Lookup(b, k) {
      assert k in a <==> k in a - S;
      assert k in b <==> k in b - S;
      if k in a {
        assert (a - S)[k] == (b - S)[k];
      }
    }
    assert forall k :: k in a - T <==> k in b - T by {
      forall k ensures k in a - T <==> k in b - T {
        if k !in T {
          assert Lookup(a, k) == Lookup(b, k);
        }
      }
    }
  }

  predicate Distinct(ids: seq<int>) {
    forall i, j :: 0 <= i < j < |ids| ==> ids[i] != ids[j]
  }

  /** A record under another member's key is untouched by a member's turn. */
  lemma StepElsewhere(m: LeftMap, id: int, reply: StatusReply, delivered: bool, now: int, key: string)
    requires key != Key(id)
    ensures Lookup(MemberStep(m, id, reply, delivered, now), key) == Lookup(m, key)
  {
  }

  /** A member's turn depends only on that member's own record. */
  lemma StepLocal(m1: LeftMap, m2: LeftMap, id: int, reply: StatusReply, delivered: bool, now: int)
    requires Lookup(m1, Key(id)) == Lookup(m2, Key(id))
    ensures Lookup(MemberStep(m1, id, reply, delivered, now), Key(id))
         == Lookup(MemberStep(m2, id, reply, delivered, now), Key(id))
  {
  }

  /** With each member listed once, what a pass leaves under a member's key is
      exactly what that member's own turn would leave there, whichever other
      members are checked before or after. */
  lemma {:induction false} PassAtMember(ids: seq<int>, m: LeftMap, now: int, status: int -> StatusReply,
                                        delivered: int -> bool, id: int)
    requires Distinct(ids) && id in ids
    ensures Lookup(Reconcile(ids, m, now, status, delivered), Key(id))
         == Lookup(MemberStep(m, id, status(id), delivered(id), now), Key(id))
    decreases |ids|
  {
    var init := ids[..|ids| - 1];
    var last := ids[|ids| - 1];
    assert ids == init + [last];
    var before := Reconcile(init, m, now, status, delivered);
    if last == id {
      assert Key(id) !in KeysOf(init) by {
        forall x | x in init ensures Key(x) != Key(id) {
          var j :| 0 <= j < |init| && init[j] == x;
          assert ids[j] != ids[|ids| - 1];
          KeyInjective(x, id);
        }
      }
      assert Lookup(before, Key(id)) == Lookup(m, Key(id)) by {
        assert Key(id) in before <==> Key(id) in before - KeysOf(init);
        assert Key(id) in m <==> Key(id) in m - KeysOf(init);
        if Key(id) in m {
          assert (before - KeysOf(init))[Key(id)] == (m - KeysOf(init))[Key(id)];
        }
      }
      StepLocal(before, m, id, status(id), delivered(id), now);
    } else {
      assert id in init;
      KeyInjective(last, id);
      PassAtMember(init, m, now, status, delivered, id);
      StepElsewhere(before, last, status(last), delivered(last), now, Key(id));
    }
  }

  /** A pass keeps every record within the cap. */
  lemma {:induction false} PassKeepsCountsCapped(ids: seq<int>, m: LeftMap, now: int,
                                                 status: int -> StatusReply, delivered: int -> bool)
    ensures CountsCapped(m) ==> CountsCapped(Reconcile(ids, m, now, status, delivered))
    decreases |ids|
  {
    if ids != [] {
      PassKeepsCountsCapped(ids[..|ids| - 1], m, now, status, delivered);
    }
  }

  /** A member reported as still in the channel has no record after the pass:
      rejoining clears the history. */
  lemma {:induction false} PassClearsRejoined(ids: seq<int>, m: LeftMap, now: int,
                                              status: int -> StatusReply, delivered: int -> bool, id: int)
    requires id in ids
    requires status(id).Reported? && !Departed(status(id).status)
    ensures Key(id) !in Reconcile(ids, m, now, status, delivered)
    decreases |ids|
  {
    var init := ids[..|ids| - 1];
    var last := ids[|ids| - 1];
    assert ids == init + [last];
    if last != id {
      assert id in init;
      KeyInjective(last, id);
      PassClearsRejoined(init, m, now, status, delivered, id);
      StepElsewhere(Reconcile(init, m, now, status, delivered), last, status(last), delivered(last), now, Key(id));
    }
  }

  /** A record at the cap is never changed by a pass, however much time has
      passed, as long as the member is not reported back in the channel. */
  lemma {:induction false} PassRespectsCap(ids: seq<int>, m: LeftMap, now: int,
                                           status: int -> StatusReply, delivered: int -> bool, id: int)
    requires Key(id) in m && m[Key(id)].count >= Cap
    requires !(status(id).Reported? && !Departed(status(id).status))
    ensures Lookup(Reconcile(ids, m, now, status, delivered), Key(id)) == Lookup(m, Key(id))
    decreases |ids|
  {
    if ids != [] {
      var init := ids[..|ids| - 1];
      var last := ids[|ids| - 1];
      var before := Reconcile(init, m, now, status, delivered);
      PassRespectsCap(init, m, now, status, delivered, id);
      if last == id {
        StepLocal(before, m, id, status(id), delivered(id), now);
      } else {
        KeyInjective(last, id);
        StepElsewhere(before, last, status(last), delivered(last), now, Key(id));
      }
    }
  }

  /** A departed member with no record gets one with no reminder sent and the
      clock started now; no reminder goes out on that pass. */
  lemma PassStartsClock(ids: seq<int>, m: LeftMap, now: int,
                        status: int -> StatusReply, delivered: int -> bool, id: int)
    requires Distinct(ids) && id in ids && Key(id) !in m
    requires status(id).Reported? && Departed(status(id).status)
    ensures var m' := Reconcile(ids, m, now, status, delivered);
      Key(id) in m' && m'[Key(id)] == Departure(0, Some(now), None)
  {
    PassAtMember(ids, m, now, status, delivered, id);
  }

  /** A stored record disappears on a pass only when the member is reported
      back in the channel; it changes otherwise only
      through one delivered reminder that was due: under the cap, at least
      FirstDelay seconds after the member was first seen gone when none was
      sent yet, and at least RepeatDelay seconds after the previous one
      otherwise. The first-seen time is kept. */
  lemma PassRemindsOnlyWhenDue(ids: seq<int>, m: LeftMap, now: int,
                               status: int -> StatusReply, delivered: int -> bool, id: int)
    requires Distinct(ids) && id in ids && Key(id) in m
    ensures Key(id) !in Reconcile(ids, m, now, status, delivered) ==>
      status(id).Reported? && !Departed(status(id).status)
    ensures var r := m[Key(id)]; var m' := Reconcile(ids, m, now, status, delivered);
      Key(id) in m' && m'[Key(id)] != r ==>
        && m'[Key(id)] == Departure(r.count + 1, r.firstSentAt, Some(now))
        && r.count < Cap
        && delivered(id)
        && r.firstSentAt.Some?
        && (r.lastSentAt == None ==> now - r.firstSentAt.value >= FirstDelay)
        && (r.lastSentAt.Some? ==> now - r.lastSentAt.value >= RepeatDelay)
  {
    PassAtMember(ids, m, now, status, delivered, id);
  }

  /** Conversely, a due reminder that is delivered to a departed member is
      recorded: one more reminder, sent now. */
  lemma PassRemindsWhenDue(ids: seq<int>, m: LeftMap, now: int,
                           status: int -> StatusReply, delivered: int -> bool, id: int)
    requires Distinct(ids) && id in ids && Key(id) in m
    requires status(id).Reported? && Departed(status(id).status) && delivered(id)
    requires m[Key(id)].count < Cap && m[Key(id)].firstSentAt.Some?
    requires m[Key(id)].lastSentAt == None ==> now - m[Key(id)].firstSentAt.value >= FirstDelay
    requires m[Key(id)].lastSentAt.Some? ==> now - m[Key(id)].lastSentAt.value >= RepeatDelay
    ensures var r := m[Key(id)]; var m' := Reconcile(ids, m, now, status, delivered);
      Key(id) in m' && m'[Key(id)] == Departure(r.count + 1, r.firstSentAt, Some(now))
  {
    PassAtMember(ids, m, now, status, delivered, id);
  }

  /** A stored record stays as it was when the status query fails, when the
      reminder cannot be delivered, or when the record has no first-seen
      time: without a last-sent time either, the elapsed-time subtraction
      raises and the member is skipped; with one, the gate never opens. */
  lemma PassKeepsUnsentRecord(ids: seq<int>, m: LeftMap, now: int,
                              status: int -> StatusReply, delivered: int -> bool, id: int)
    requires Distinct(ids) && id in ids && Key(id) in m
    requires || status(id) == QueryFailed
             || (Departed(status(id).status) && (!delivered(id) || m[Key(id)].firstSentAt == None))
    ensures Lookup(Reconcile(ids, m, now, status, delivered), Key(id)) == Some(m[Key(id)])
  {
    PassAtMember(ids, m, now, status, delivered, id);
  }

  /** The inputs of one pass: the members listed in the member file at that
      time (joins may add some between passes), the time it runs and the
      gateway's answers. */
  datatype PassInput = PassInput(ids: seq<int>, now: int, status: int -> StatusReply, delivered: int -> bool)

  /** The departure map after the passes run one after the other. */
  function Run(m: LeftMap, passes: seq<PassInput>): LeftMap
    decreases |passes|
  {
    if passes == [] then m
    else
      var p := passes[|passes| - 1];
      Reconcile(p.ids, Run(m, passes[..|passes| - 1]), p.now, p.status, p.delivered)
  }

  /** A member at the cap is never sent another reminder, across any number of
      passes over any member lists, for as long as no pass reports the member
      back in the channel. */
  lemma {:induction false} RunRespectsCap(m: LeftMap, passes: seq<PassInput>, id: int)
    requires Key(id) in m && m[Key(id)].count >= Cap
    requires forall i :: 0 <= i < |passes| ==>
      !(passes[i].status(id).Reported? && !Departed(passes[i].status(id).status))
    ensures Lookup(Run(m, passes), Key(id)) == Lookup(m, Key(id))
    decreases |passes|
  {
    if passes != [] {
      var init := passes[..|passes| - 1];
      var p := passes[|passes| - 1];
      RunRespectsCap(m, init, id);
      PassRespectsCap(p.ids, Run(m, init), p.now, p.status, p.delivered, id);
    }
  }

  /** A member who rejoins and then leaves again starts a fresh cadence from
      zero reminders. */
  lemma RejoinThenLeaveRestarts(m: LeftMap, id: int, p1: PassInput, p2: PassInput)
    requires id in p1.ids
    requires Distinct(p2.ids) && id in p2.ids
    requires p1.status(id).Reported? && !Departed(p1.status(id).status)
    requires p2.status(id).Reported? && Departed(p2.status(id).status)
    ensures var m' := Run(m, [p1, p2]);
      Key(id) in m' && m'[Key(id)] == Departure(0, Some(p2.now), None)
  {
    assert [p1, p2][..1] == [p1];
    assert [p1][..0] == [];
    var m1 := Reconcile(p1.ids, m, p1.now, p1.status, p1.delivered);
    assert Run(m, [p1]) == m1;
    assert Run(m, [p1, p2]) == Reconcile(p2.ids, m1, p2.now, p2.status, p2.delivered);
    PassClearsRejoined(p1.ids, m, p1.now, p1.status, p1.delivered, id);
    PassStartsClock(p2.ids, m1, p2.now, p2.status, p2.delivered, id);
  }

  /** A member seen gone at time 0 with no record: no reminder at 0, the first
      at 65, none at 100, the second at 86466. */
  lemma DepartureTimeline(x: int)
    ensures var status := (id: int) => Reported(Left);
      var delivered := (id: int) => true;
      var m0 := Reconcile([x], map[], 0, status, delivered);
      var m1 := Reconcile([x], m0, 65, status, delivered);
      var m2 := Reconcile([x], m1, 100, status, delivered);
      var m3 := Reconcile([x], m2, 86466, status, delivered);
      && m0[Key(x)] == Departure(0, Some(0), None)
      && m1[Key(x)] == Departure(1, Some(0), Some(65))
      && m2[Key(x)] == Departure(1, Some(0), Some(65))
      && m3[Key(x)] == Departure(2, Some(0), Some(86466))
  {
  }
}
