/** Delivery of a job's cancel events from the durable table to its current subscriber:
    concurrent deliveries, replaced and closing subscribers, failed acknowledgements. */
module Events {

  const CAPACITY: nat := 100

  datatype Row = Row(id: nat, kind: int, expires: nat)

  /** A delivery to one subscriber, serialised by its own lock: the free capacity it
      saw, then the rows it drained and the ids below them that became visible since,
      then the ids it enqueued and will acknowledge. */
  datatype Delivery =
    | Idle
    | Measured(capacity: nat)
    | Drained(rows: seq<Row>, missed: set<nat>)
    | Enqueued(ids: seq<nat>)

  /** A subscriber: its buffered channel, everything ever sent on it, its closing, which
      first withdraws the subscription and then closes the channel, and the events that
      became visible too late for it: after a larger id had been sent to it, or had been
      drained for a delivery that was then sent. */
  datatype Sub = Sub(
    channel: seq<nat>,
    sent: seq<nat>,
    delivery: Delivery,
    withdrawn: bool,
    closed: bool,
    late: set<nat>)

  /** The table, inserts that have their id but are not visible yet, and the subscribers;
      with the history of visible, acknowledged and purged events. */
  datatype State = State(
    table: seq<Row>,
    inserting: set<Row>,
    nextId: nat,
    now: nat,
    subs: seq<Sub>,
    current: int,
    visible: set<nat>,
    acked: set<nat>,
    purged: set<Row>)

  const START := State([], {}, 0, 0, [], -1, {}, {}, {})

  /** The unexpired rows, in table order. */
  function Live(table: seq<Row>, now: nat): (rows: seq<Row>)
    ensures forall r :: r in rows <==> r in table && r.expires > now
  {
    if |table| == 0 then []
    else
      var last := table[|table| - 1];
      var front := Live(table[..|table| - 1], now);
      if last.expires > now then front + [last] else front
  }

  function Ids(rows: seq<Row>): seq<nat> {
    seq(|rows|, i requires 0 <= i < |rows| => rows[i].id)
  }

  function Take<T>(s: seq<T>, n: nat): seq<T> {
    if n <= |s| then s[..n] else s
  }

  /** Rows the table keeps. */
  function Without(table: seq<Row>, ids: set<nat>): (rows: seq<Row>)
    ensures forall r :: r in rows <==> r in table && r.id !in ids
  {
    if |table| == 0 then []
    else
      var last := table[|table| - 1];
      var front := Without(table[..|table| - 1], ids);
      if last.id !in ids then front + [last] else front
  }

  /** A row becomes visible at its place in id order. */
  function Placed(table: seq<Row>, row: Row): (rows: seq<Row>)
    ensures forall r :: r in rows <==> r in table || r == row
  {
    if |table| == 0 || table[|table| - 1].id < row.id then table + [row]
    else Placed(table[..|table| - 1], row) + [table[|table| - 1]]
  }

  // ---- the send loop ----

  class Channel {
    var buffer: seq<nat>

    constructor (buffer: seq<nat>)
      ensures this.buffer == buffer
    {
      this.buffer := buffer;
    }

    /** Non-blocking sends in order, stopping at the first that finds the channel full:
        what is accepted is a prefix, and as long as the free capacity allows. */
    method Offer(rows: seq<Row>) returns (accepted: seq<nat>)
      requires |buffer| <= CAPACITY
      modifies this
      ensures accepted == Ids(Take(rows, CAPACITY - |old(buffer)|))
      ensures buffer == old(buffer) + accepted && |buffer| <= CAPACITY
    {
      accepted := [];
      for i := 0 to |rows|
        invariant |accepted| == i <= CAPACITY - |old(buffer)|
        invariant accepted == Ids(rows[..i]) && buffer == old(buffer) + accepted
      {
        if |buffer| == CAPACITY {
          return;
        }
        buffer := buffer + [rows[i].id];
        accepted := accepted + [rows[i].id];
      }
      assert rows[..|rows|] == rows;
    }
  }

  // ---- steps ----

  datatype Step =
    | Allocate(kind: int, expires: nat)
    | Appear(row: Row)
    | Tick(dt: nat)
    | Purge
    | Subscribe
    | Withdraw(k: nat)
    | CloseChannel(k: nat)
    | Consume(k: nat)
    | Measure(k: nat)
    | Drain(k: nat)
    | Send(k: nat)
    | Acknowledge(k: nat, ok: bool)
    | GiveUp(k: nat)

  predicate Enabled(s: State, step: Step) {
    match step
    case Allocate(_, _) => true
    case Appear(row) => row in s.inserting
    case Tick(_) => true
    case Purge => true
    case Subscribe => true
    case Withdraw(k) => k < |s.subs|
    case CloseChannel(k) => k < |s.subs| && s.subs[k].withdrawn
    case Consume(k) => k < |s.subs| && |s.subs[k].channel| > 0
    case Measure(k) => k < |s.subs| && s.subs[k].delivery == Idle && s.current == k
    case Drain(k) => k < |s.subs| && s.subs[k].delivery.Measured?
    case Send(k) => k < |s.subs| && s.subs[k].delivery.Drained? && s.current == k
    case Acknowledge(k, _) => k < |s.subs| && s.subs[k].delivery.Enqueued?
    case GiveUp(k) =>
      k < |s.subs| && (s.subs[k].delivery.Measured? || (s.subs[k].delivery.Drained? && s.current != k))
  }

  function Expired(s: State): set<Row> {
    set r | r in s.table && r.expires < s.now
  }

  function RowIds(rows: set<Row>): set<nat> {
    set r | r in rows :: r.id
  }

  /** A subscriber, when an event becomes visible. */
  function Noticing(sub: Sub, id: nat): Sub {
    if exists x :: x in sub.sent && id < x then sub.(late := sub.late + {id})
    else if sub.delivery.Drained? && exists r :: r in sub.delivery.rows && id < r.id
    then sub.(delivery := sub.delivery.(missed := sub.delivery.missed + {id}))
    else sub
  }

  function SubAfter(s: State, step: Step): Sub
    requires Enabled(s, step) && !(step.Allocate? || step.Appear? || step.Tick? || step.Purge? || step.Subscribe?)
  {
    var sub := s.subs[step.k];
    match step
    case Withdraw(_) => sub.(withdrawn := true)
    case CloseChannel(_) => sub.(closed := true)
    case Consume(_) => sub.(channel := sub.channel[1..])
    case Measure(_) =>
      if |sub.channel| < CAPACITY then sub.(delivery := Measured(CAPACITY - |sub.channel|)) else sub
    case Drain(_) => sub.(delivery := Drained(Take(Live(s.table, s.now), sub.delivery.capacity), {}))
    case Send(_) =>
      var free := if |sub.channel| <= CAPACITY then CAPACITY - |sub.channel| else 0;
      var ids := Ids(Take(sub.delivery.rows, free));
      sub.(channel := sub.channel + ids, sent := sub.sent + ids, delivery := Enqueued(ids),
           late := sub.late + sub.delivery.missed)
    case Acknowledge(_, _) => sub.(delivery := Idle)
    case GiveUp(_) => sub.(delivery := Idle)
  }

  function IdSet(ids: seq<nat>): set<nat> {
    set i | 0 <= i < |ids| :: ids[i]
  }

  function Next(s: State, step: Step): State
    requires Enabled(s, step)
  {
    match step
    case Allocate(kind, expires) =>
      s.(inserting := s.inserting + {Row(s.nextId, kind, expires)}, nextId := s.nextId + 1)
    case Appear(row) =>
      s.(table := Placed(s.table, row), inserting := s.inserting - {row}, visible := s.visible + {row.id},
         subs := seq(|s.subs|, k requires 0 <= k < |s.subs| => Noticing(s.subs[k], row.id)))
    case Tick(dt) => s.(now := s.now + dt)
    case Purge => s.(table := Without(s.table, RowIds(Expired(s))), purged := s.purged + Expired(s))
    case Subscribe => s.(subs := s.subs + [Sub([], [], Idle, false, false, {})], current := |s.subs|)
    case Withdraw(k) =>
      s.(subs := s.subs[k := SubAfter(s, step)], current := if s.current == k then -1 else s.current)
    case Acknowledge(k, ok) =>
      var ids := IdSet(s.subs[k].delivery.ids);
      if ok then s.(subs := s.subs[k := SubAfter(s, step)], table := Without(s.table, ids), acked := s.acked + ids)
      else s.(subs := s.subs[k := SubAfter(s, step)])
    case _ => s.(subs := s.subs[step.k := SubAfter(s, step)])
  }

  function Run(steps: seq<Step>): State {
    if |steps| == 0 then START
    else
      var s := Run(steps[..|steps| - 1]);
      if Enabled(s, steps[|steps| - 1]) then Next(s, steps[|steps| - 1]) else s
  }

  // ---- invariants ----

  ghost predicate Ascending(rows: seq<Row>) {
    forall i, j :: 0 <= i < j < |rows| ==> rows[i].id < rows[j].id
  }

  /** No unexpired row was passed over: below anything sent, all has been sent, except
      what was not visible in time. */
  ghost predicate NotSkipped(table: seq<Row>, now: nat, late: set<nat>, sent: seq<nat>) {
    forall r, x :: r in table && x in sent && r.id < x ==> r.id in sent || r.expires <= now || r.id in late
  }

  /** Something larger was sent before an id that was not sent yet. */
  ghost predicate Overtaken(sent: seq<nat>, id: nat) {
    exists x :: 0 <= x < |sent| && id < sent[x] && id !in sent[..x]
  }

  /** What was overtaken is exactly what is late, as far as it was sent. */
  ghost predicate LateExact(sub: Sub) {
    && (forall id :: id in sub.late ==> Overtaken(sub.sent, id))
    && (forall id :: id in sub.sent && Overtaken(sub.sent, id) ==> id in sub.late)
  }

  /** An id missed by a drain is neither sent nor drained, but something above it is. */
  ghost predicate Misses(rows: seq<Row>, sent: seq<nat>, id: nat) {
    && id !in sent && (forall r :: r in rows ==> r.id != id)
    && exists r :: r in rows && id < r.id
  }

  /** Rows drained for a subscriber: every live row below one of them is among them,
      missed or late, and each is a redelivery, late, or beyond everything sent. */
  ghost predicate DrainOk(table: seq<Row>, now: nat, sub: Sub)
    requires sub.delivery.Drained?
  {
    var rows, missed := sub.delivery.rows, sub.delivery.missed;
    && Ascending(rows)
    && (forall r, x :: r in table && x in rows && r.id < x.id ==>
                         r in rows || r.expires <= now || r.id in sub.late || r.id in missed)
    && (forall x, y :: x in rows && y in sub.sent ==> x.id in sub.sent || y < x.id || x.id in sub.late)
    && (forall id :: id in missed ==> Misses(rows, sub.sent, id))
  }

  ghost predicate SubInv(table: seq<Row>, nextId: nat, now: nat, sub: Sub) {
    && |sub.channel| <= CAPACITY
    && (forall x :: x in sub.sent ==> x < nextId)
    && NotSkipped(table, now, sub.late, sub.sent) && LateExact(sub)
    && (sub.closed ==> sub.withdrawn)
    && match sub.delivery
       case Idle => true
       case Measured(c) => c <= CAPACITY - |sub.channel|
       case Drained(rows, _) =>
         |rows| <= CAPACITY - |sub.channel| && DrainOk(table, now, sub) && forall x :: x in rows ==> x.id < nextId
       case Enqueued(ids) => forall x :: x in ids ==> x in sub.sent
  }

  ghost predicate SubVisible(visible: set<nat>, sub: Sub) {
    && (forall x :: x in sub.sent ==> x in visible)
    && (sub.delivery.Drained? ==> forall r :: r in sub.delivery.rows ==> r.id in visible)
  }

  /** Only visible events are drained and sent. */
  ghost predicate VisibleInv(s: State) {
    && (forall r :: r in s.table ==> r.id in s.visible)
    && (forall r :: r in s.inserting ==> r.id !in s.visible)
    && (forall x :: x in s.visible ==> x < s.nextId)
    && (forall k :: 0 <= k < |s.subs| ==> SubVisible(s.visible, s.subs[k]))
  }

  ghost predicate TableInv(s: State) {
    && Ascending(s.table)
    && (forall r :: r in s.table ==> r.id < s.nextId)
    && (forall r :: r in s.inserting ==> r.id < s.nextId)
    && (forall r, t :: r in s.inserting && t in s.table ==> r.id != t.id)
    && (forall r, q :: r in s.inserting && q in s.inserting && r.id == q.id ==> r == q)
  }

  ghost predicate SentTo(s: State, k: nat, id: nat) {
    k < |s.subs| && id in s.subs[k].sent
  }

  ghost predicate InTable(table: seq<Row>, id: nat) {
    exists r :: r in table && r.id == id
  }

  /** The event was removed from the table after its expiry. */
  ghost predicate Lapsed(s: State, id: nat) {
    exists r :: r in s.purged && r.id == id && r.expires < s.now
  }

  ghost predicate Conserved(s: State) {
    && (forall id :: id in s.visible ==> InTable(s.table, id) || id in s.acked || Lapsed(s, id))
    && (forall id :: id in s.acked ==> exists k :: SentTo(s, k, id))
  }

  ghost predicate CurrentInv(s: State) {
    && s.current < |s.subs|
    && (s.current >= 0 ==> !s.subs[s.current].withdrawn && !s.subs[s.current].closed)
  }

  ghost predicate EventInv(s: State) {
    && TableInv(s) && VisibleInv(s) && CurrentInv(s) && Conserved(s)
    && forall k :: 0 <= k < |s.subs| ==> SubInv(s.table, s.nextId, s.now, s.subs[k])
  }

  // ---- preservation ----

  /** Rows leaving the table and time passing leave every subscriber's record true. */
  lemma TableShrinks(table: seq<Row>, rest: seq<Row>, nextId: nat, now: nat, later: nat, sub: Sub)
    requires SubInv(table, nextId, now, sub) && now <= later && forall r :: r in rest ==> r in table
    ensures SubInv(rest, nextId, later, sub)
  {}

  /** So does a row that becomes visible. */
  lemma RowAppears(table: seq<Row>, nextId: nat, now: nat, row: Row, sub: Sub)
    requires SubInv(table, nextId, now, sub) && row.id !in sub.sent
    requires sub.delivery.Drained? ==> forall r :: r in sub.delivery.rows ==> r.id != row.id
    ensures SubInv(Placed(table, row), nextId, now, Noticing(sub, row.id))
  {
    if exists x :: x in sub.sent && row.id < x {
      var x :| 0 <= x < |sub.sent| && row.id < sub.sent[x];
      assert row.id !in sub.sent[..x];
    }
  }

  lemma IdsGrow(s: State, sub: Sub)
    requires SubInv(s.table, s.nextId, s.now, sub)
    ensures SubInv(s.table, s.nextId + 1, s.now, sub)
  {}

  lemma {:induction false} PlacedAscends(table: seq<Row>, row: Row)
    requires Ascending(table) && forall r :: r in table ==> r.id != row.id
    ensures Ascending(Placed(table, row))
  {
    if |table| > 0 && table[|table| - 1].id > row.id {
      var front, last := table[..|table| - 1], table[|table| - 1];
      assert last in table;
      PlacedAscends(front, row);
      forall r | r in Placed(front, row) ensures r.id < last.id {
        if r in front {
          var i :| 0 <= i < |front| && front[i] == r;
          assert table[i] == r;
        }
      }
    } else if |table| > 0 {
      assert table[|table| - 1] in table;
    }
  }

  lemma {:induction false} LiveAscends(table: seq<Row>, now: nat)
    requires Ascending(table)
    ensures Ascending(Live(table, now))
  {
    if |table| > 0 {
      var front := table[..|table| - 1];
      LiveAscends(front, now);
      var last := table[|table| - 1];
      forall r | r in Live(front, now) ensures r.id < last.id {
        var i :| 0 <= i < |front| && front[i] == r;
        assert table[i] == r;
      }
    }
  }

  lemma {:induction false} WithoutAscends(table: seq<Row>, ids: set<nat>)
    requires Ascending(table)
    ensures Ascending(Without(table, ids))
  {
    if |table| > 0 {
      var front := table[..|table| - 1];
      WithoutAscends(front, ids);
      var last := table[|table| - 1];
      forall r | r in Without(front, ids) ensures r.id < last.id {
        var i :| 0 <= i < |front| && front[i] == r;
        assert table[i] == r;
      }
    }
  }

  lemma TakePrefix(rows: seq<Row>, n: nat, r: Row, x: Row)
    requires Ascending(rows) && r in rows && x in Take(rows, n) && r.id < x.id
    ensures r in Take(rows, n)
  {
    var i :| 0 <= i < |rows| && rows[i] == r;
    var j :| 0 <= j < |Take(rows, n)| && Take(rows, n)[j] == x;
    assert rows[j] == x;
    assert i < j;
    assert Take(rows, n)[i] == r;
  }

  lemma DrainKeeps(table: seq<Row>, nextId: nat, now: nat, sub: Sub)
    requires SubInv(table, nextId, now, sub) && sub.delivery.Measured? && Ascending(table)
    requires forall r :: r in table ==> r.id < nextId
    ensures SubInv(table, nextId, now, sub.(delivery := Drained(Take(Live(table, now), sub.delivery.capacity), {})))
  {
    var live := Live(table, now);
    var rows := Take(live, sub.delivery.capacity);
    LiveAscends(table, now);
    forall r, x | r in table && x in rows && r.id < x.id && r.expires > now ensures r in rows {
      TakePrefix(live, sub.delivery.capacity, r, x);
    }
    forall x, y | x in rows && y in sub.sent ensures x.id in sub.sent || y < x.id || x.id in sub.late {
      assert x in table;
    }
  }

  lemma IdsMember(rows: seq<Row>)
    ensures forall r :: r in rows ==> r.id in Ids(rows)
    ensures forall x :: x in Ids(rows) ==> exists r :: r in rows && r.id == x
  {
    forall r | r in rows ensures r.id in Ids(rows) {
      var i :| 0 <= i < |rows| && rows[i] == r;
      assert Ids(rows)[i] == r.id;
    }
    forall x | x in Ids(rows) ensures exists r :: r in rows && r.id == x {
      var i :| 0 <= i < |rows| && Ids(rows)[i] == x;
      assert rows[i] in rows;
    }
  }

  /** Sending more leaves overtaken what was, and overtakes what a drain missed. */
  lemma StillOvertaken(sent: seq<nat>, more: seq<nat>, id: nat)
    requires Overtaken(sent, id)
    ensures Overtaken(sent + more, id)
  {
    var x :| 0 <= x < |sent| && id < sent[x] && id !in sent[..x];
    assert (sent + more)[..x] == sent[..x];
  }

  lemma MissedIsOvertaken(sent: seq<nat>, rows: seq<Row>, id: nat)
    requires Misses(rows, sent, id)
    ensures Overtaken(sent + Ids(rows), id)
  {
    IdsMember(rows);
    var i :| 0 <= i < |rows| && id < rows[i].id;
    var all := sent + Ids(rows);
    assert all[|sent| + i] == rows[i].id;
    assert id !in all[..|sent| + i];
  }

  /** Whatever a send overtakes had been overtaken before, or was late when drained. */
  lemma NewlyOvertaken(sent: seq<nat>, rows: seq<Row>, late: set<nat>, id: nat)
    requires Ascending(rows)
    requires forall x, y :: x in rows && y in sent ==> x.id in sent || y < x.id || x.id in late
    requires id in sent + Ids(rows) && Overtaken(sent + Ids(rows), id)
    ensures id in late || (id in sent && Overtaken(sent, id))
  {
    var all := sent + Ids(rows);
    var x :| 0 <= x < |all| && id < all[x] && id !in all[..x];
    if id in sent {
      SentBefore(sent, Ids(rows), x, id);
      assert all[..x] == sent[..x];
    } else {
      var j :| 0 <= j < |rows| && Ids(rows)[j] == id;
      assert rows[j] in rows;
      InPrefixes(all, |sent| + j);
      if x < |sent| {
        assert all[x] in sent;
      }
    }
  }

  lemma InPrefixes(s: seq<nat>, i: nat)
    requires i < |s|
    ensures forall x :: i < x <= |s| ==> s[i] in s[..x]
  {
    forall x | i < x <= |s| ensures s[i] in s[..x] {
      assert s[..x][i] == s[i];
    }
  }

  lemma SentBefore(sent: seq<nat>, more: seq<nat>, x: nat, id: nat)
    requires id in sent && x <= |sent + more| && id !in (sent + more)[..x]
    ensures x < |sent|
  {
    var i :| 0 <= i < |sent| && sent[i] == id;
    InPrefixes(sent + more, i);
  }

  lemma SkipsNothing(table: seq<Row>, now: nat, sub: Sub)
    requires NotSkipped(table, now, sub.late, sub.sent) && sub.delivery.Drained? && DrainOk(table, now, sub)
    ensures NotSkipped(table, now, sub.late + sub.delivery.missed, sub.sent + Ids(sub.delivery.rows))
  {
    var rows := sub.delivery.rows;
    var sent, late := sub.sent + Ids(rows), sub.late + sub.delivery.missed;
    IdsMember(rows);
    forall r, x | r in table && x in sent && r.id < x && r.expires > now && r.id !in late ensures r.id in sent {
      if x !in sub.sent {
        assert x in Ids(rows);
        var z :| z in rows && z.id == x;
        assert r in rows;
      }
    }
  }

  function Sending(sub: Sub): Sub
    requires sub.delivery.Drained?
  {
    var ids := Ids(sub.delivery.rows);
    sub.(channel := sub.channel + ids, sent := sub.sent + ids, delivery := Enqueued(ids),
         late := sub.late + sub.delivery.missed)
  }

  lemma LateStaysExact(table: seq<Row>, now: nat, sub: Sub)
    requires LateExact(sub) && sub.delivery.Drained? && DrainOk(table, now, sub)
    ensures LateExact(Sending(sub))
  {
    var rows, n := sub.delivery.rows, Sending(sub);
    forall id | id in n.late ensures Overtaken(n.sent, id) {
      if id in sub.late {
        StillOvertaken(sub.sent, Ids(rows), id);
      } else {
        MissedIsOvertaken(sub.sent, rows, id);
      }
    }
    forall id | id in n.sent && Overtaken(n.sent, id) ensures id in n.late {
      NewlyOvertaken(sub.sent, rows, sub.late, id);
    }
  }

  /** Everything drained fits: the channel only emptied since its capacity was read. */
  lemma SendKeeps(table: seq<Row>, nextId: nat, now: nat, sub: Sub)
    requires SubInv(table, nextId, now, sub) && sub.delivery.Drained?
    ensures SubInv(table, nextId, now, Sending(sub))
  {
    IdsMember(sub.delivery.rows);
    LateStaysExact(table, now, sub);
    SkipsNothing(table, now, sub);
  }

  /** Steps of a subscriber that drain and send nothing. */
  lemma QuietSubStep(s: State, step: Step)
    requires EventInv(s) && Enabled(s, step)
    requires step.Withdraw? || step.CloseChannel? || step.Consume? || step.Measure? || step.Acknowledge? || step.GiveUp?
    ensures SubInv(s.table, s.nextId, s.now, SubAfter(s, step))
  {
    assert SubInv(s.table, s.nextId, s.now, s.subs[step.k]);
  }

  lemma SendsAll(s: State, k: nat)
    requires Enabled(s, Send(k)) && |s.subs[k].delivery.rows| <= CAPACITY - |s.subs[k].channel|
    ensures SubAfter(s, Send(k)) == Sending(s.subs[k])
  {
    var sub := s.subs[k];
    assert Take(sub.delivery.rows, CAPACITY - |sub.channel|) == sub.delivery.rows;
  }

  lemma SendStep(s: State, k: nat)
    requires EventInv(s) && Enabled(s, Send(k))
    ensures SubInv(s.table, s.nextId, s.now, SubAfter(s, Send(k)))
    ensures SubAfter(s, Send(k)).sent == s.subs[k].sent + Ids(s.subs[k].delivery.rows)
  {
    assert SubInv(s.table, s.nextId, s.now, s.subs[k]);
    SendKeeps(s.table, s.nextId, s.now, s.subs[k]);
    SendsAll(s, k);
  }

  /** The step of one subscriber, the table apart. */
  lemma SubStep(s: State, step: Step)
    requires EventInv(s) && Enabled(s, step)
    requires !(step.Allocate? || step.Appear? || step.Tick? || step.Purge? || step.Subscribe?)
    ensures SubInv(s.table, s.nextId, s.now, SubAfter(s, step))
  {
    if step.Drain? {
      assert SubInv(s.table, s.nextId, s.now, s.subs[step.k]);
      DrainKeeps(s.table, s.nextId, s.now, s.subs[step.k]);
    } else if step.Send? {
      SendStep(s, step.k);
    } else {
      QuietSubStep(s, step);
    }
  }

  /** Subscribers keep what was sent to them. */
  lemma SentGrows(s: State, step: Step, k: nat, id: nat)
    requires Enabled(s, step) && SentTo(s, k, id)
    ensures SentTo(Next(s, step), k, id)
  {}

  lemma SentSomewhere(s: State, step: Step, id: nat)
    requires Enabled(s, step) && exists k :: SentTo(s, k, id)
    ensures exists k :: SentTo(Next(s, step), k, id)
  {
    var k :| SentTo(s, k, id);
    SentGrows(s, step, k, id);
  }

  lemma AckedWasSent(s: State, step: Step, id: nat)
    requires EventInv(s) && Enabled(s, step) && id in Next(s, step).acked
    ensures exists k :: SentTo(Next(s, step), k, id)
  {
    if id in s.acked {
      SentSomewhere(s, step, id);
    } else {
      var k := step.k;
      assert SubInv(s.table, s.nextId, s.now, s.subs[k]);
      assert id in s.subs[k].delivery.ids;
      assert SentTo(s, k, id);
      SentGrows(s, step, k, id);
    }
  }

  lemma RowsAccounted(s: State, step: Step, id: nat)
    requires EventInv(s) && Enabled(s, step) && id in Next(s, step).visible
    ensures var n := Next(s, step); InTable(n.table, id) || id in n.acked || Lapsed(n, id)
  {
    var n := Next(s, step);
    if step.Appear? && id == step.row.id {
      assert step.row in n.table;
    } else if InTable(s.table, id) {
      var r :| r in s.table && r.id == id;
      if step.Purge? && r !in n.table {
        var q :| q in Expired(s) && q.id == r.id;
        assert q in n.purged;
      } else {
        assert r in n.table || id in n.acked;
      }
    } else if id !in s.acked {
      var r :| r in s.purged && r.id == id && r.expires < s.now;
      assert r in n.purged;
    }
  }

  lemma TableStep(s: State, step: Step)
    requires EventInv(s) && Enabled(s, step)
    ensures TableInv(Next(s, step))
    ensures step.Appear? || forall r :: r in Next(s, step).table ==> r in s.table
  {
    if step.Purge? {
      WithoutAscends(s.table, RowIds(Expired(s)));
    } else if step.Acknowledge? && step.ok {
      WithoutAscends(s.table, IdSet(s.subs[step.k].delivery.ids));
    } else if step.Appear? {
      PlacedAscends(s.table, step.row);
    }
  }

  lemma SubsStep(s: State, step: Step, k: nat)
    requires EventInv(s) && Enabled(s, step) && k < |Next(s, step).subs|
    ensures var n := Next(s, step); SubInv(n.table, n.nextId, n.now, n.subs[k])
  {
    var n := Next(s, step);
    TableStep(s, step);
    if step.Subscribe? {
      assert k < |s.subs| ==> SubInv(s.table, s.nextId, s.now, s.subs[k]);
    } else if step.Allocate? {
      IdsGrow(s, s.subs[k]);
    } else if step.Appear? {
      assert SubVisible(s.visible, s.subs[k]);
      RowAppears(s.table, s.nextId, s.now, step.row, s.subs[k]);
    } else if step.Tick? || step.Purge? || step.k != k {
      TableShrinks(s.table, n.table, s.nextId, s.now, n.now, s.subs[k]);
    } else {
      SubStep(s, step);
      TableShrinks(s.table, n.table, s.nextId, s.now, n.now, SubAfter(s, step));
    }
  }

  lemma SubStaysVisible(s: State, step: Step)
    requires VisibleInv(s) && Enabled(s, step)
    requires !(step.Allocate? || step.Appear? || step.Tick? || step.Purge? || step.Subscribe?)
    ensures SubVisible(s.visible, SubAfter(s, step))
  {
    var sub := s.subs[step.k];
    assert SubVisible(s.visible, sub);
    if step.Send? {
      IdsMember(Take(sub.delivery.rows, if |sub.channel| <= CAPACITY then CAPACITY - |sub.channel| else 0));
    }
  }

  lemma VisibleStep(s: State, step: Step)
    requires TableInv(s) && VisibleInv(s) && Enabled(s, step)
    ensures VisibleInv(Next(s, step))
  {
    var n := Next(s, step);
    forall k | 0 <= k < |n.subs| ensures SubVisible(n.visible, n.subs[k]) {
      if k < |s.subs| {
        assert SubVisible(s.visible, s.subs[k]);
      }
      if !(step.Allocate? || step.Appear? || step.Tick? || step.Purge? || step.Subscribe?) && step.k == k {
        SubStaysVisible(s, step);
      }
    }
  }

  lemma CurrentStep(s: State, step: Step)
    requires CurrentInv(s) && Enabled(s, step)
    ensures CurrentInv(Next(s, step))
  {}

  lemma StepKeeps(s: State, step: Step)
    requires EventInv(s) && Enabled(s, step)
    ensures EventInv(Next(s, step))
  {
    var n := Next(s, step);
    TableStep(s, step);
    VisibleStep(s, step);
    CurrentStep(s, step);
    forall id | id in n.visible ensures InTable(n.table, id) || id in n.acked || Lapsed(n, id) {
      RowsAccounted(s, step, id);
    }
    forall id | id in n.acked ensures exists k :: SentTo(n, k, id) {
      AckedWasSent(s, step, id);
    }
    forall k | 0 <= k < |n.subs| ensures SubInv(n.table, n.nextId, n.now, n.subs[k]) {
      SubsStep(s, step, k);
    }
  }

  lemma {:induction false} EventsAlways(steps: seq<Step>)
    ensures EventInv(Run(steps))
  {
    if |steps| > 0 {
      EventsAlways(steps[..|steps| - 1]);
      var s := Run(steps[..|steps| - 1]);
      if Enabled(s, steps[|steps| - 1]) {
        StepKeeps(s, steps[|steps| - 1]);
      }
    }
  }

  // ---- what follows ----

  /** No event is lost: in every interleaving each event that became visible is still in
      the table, was purged after its expiry, or was acknowledged, and then it had been
      enqueued to a subscriber. */
  lemma NoEventLost(steps: seq<Step>, id: nat)
    requires id in Run(steps).visible
    ensures var s := Run(steps);
            InTable(s.table, id) || Lapsed(s, id) || (id in s.acked && exists k :: SentTo(s, k, id))
  {
    EventsAlways(steps);
  }

  /** What each subscriber sees, exactly: a first delivery comes after a larger id if and
      only if the event became visible too late for that subscriber, and no other unexpired
      event below one sent was passed over. */
  lemma InOrderWithoutGaps(steps: seq<Step>, k: nat)
    requires k < |Run(steps).subs|
    ensures var s := Run(steps);
            var sub := s.subs[k];
            && (forall y :: 0 <= y < |sub.sent| && sub.sent[y] !in sub.sent[..y] ==>
                              ((exists x :: 0 <= x < y && sub.sent[x] > sub.sent[y]) <==> sub.sent[y] in sub.late))
            && NotSkipped(s.table, s.now, sub.late, sub.sent)
  {
    EventsAlways(steps);
    var s := Run(steps);
    var sub := s.subs[k];
    assert SubInv(s.table, s.nextId, s.now, sub);
    forall y | 0 <= y < |sub.sent| && sub.sent[y] !in sub.sent[..y]
      ensures (exists x :: 0 <= x < y && sub.sent[x] > sub.sent[y]) <==> sub.sent[y] in sub.late
    {
      OvertakenBefore(sub.sent, y);
    }
  }

  lemma OvertakenBefore(sent: seq<nat>, y: nat)
    requires y < |sent| && sent[y] !in sent[..y]
    ensures (exists x :: 0 <= x < y && sent[x] > sent[y]) <==> Overtaken(sent, sent[y])
  {
    if x :| 0 <= x < y && sent[x] > sent[y] {
      assert forall i :: 0 <= i < x ==> sent[..x][i] == sent[..y][i];
      assert sent[y] !in sent[..x];
    }
    InPrefixes(sent, y);
  }

  lemma OnlySub(s: State, step: Step)
    requires |s.subs| == 1 && Enabled(s, step) && (step == Measure(0) || step == Drain(0) || step == Send(0))
    ensures Next(s, step) == s.(subs := [SubAfter(s, step)])
  {
    assert s.subs[0 := SubAfter(s, step)] == [SubAfter(s, step)];
  }

  ghost predicate ReadyFor(s: State, row: Row) {
    && s.table == [row] && row.expires > s.now && s.current == 0 && |s.subs| == 1
    && s.subs[0].delivery == Idle && |s.subs[0].channel| < CAPACITY
  }

  lemma LiveOne(row: Row, now: nat, n: nat)
    requires row.expires > now && n > 0
    ensures Take(Live([row], now), n) == [row]
  {
    assert Live([row], now) == [row];
  }

  /** A drain for an idle subscriber finds the one live row. */
  lemma Drains(steps: seq<Step>, row: Row) returns (longer: seq<Step>)
    requires ReadyFor(Run(steps), row)
    ensures Run(longer) == Run(steps).(subs := [Run(steps).subs[0].(delivery := Drained([row], {}))])
  {
    var s := Run(steps);
    LiveOne(row, s.now, CAPACITY - |s.subs[0].channel|);
    OnlySub(s, Measure(0));
    longer, s := Extend(steps, Measure(0));
    OnlySub(s, Drain(0));
    longer, s := Extend(longer, Drain(0));
  }

  lemma Sends(steps: seq<Step>, row: Row) returns (longer: seq<Step>)
    requires ReadyFor(Run(steps), row)
    ensures Run(longer) == Run(steps).(subs := [Sending(Run(steps).subs[0].(delivery := Drained([row], {})))])
  {
    longer := Drains(steps, row);
    var s := Run(longer);
    SendsAll(s, 0);
    OnlySub(s, Send(0));
    longer, s := Extend(longer, Send(0));
  }

  /** It is then acknowledged. */
  lemma Delivers(steps: seq<Step>, row: Row) returns (longer: seq<Step>)
    requires ReadyFor(Run(steps), row)
    ensures var s, n := Run(steps), Run(longer);
            && n.table == [] && n.inserting == s.inserting && n.now == s.now && n.current == 0 && |n.subs| == 1
            && n.subs[0].sent == s.subs[0].sent + [row.id] && n.subs[0].delivery == Idle
            && |n.subs[0].channel| == |s.subs[0].channel| + 1
  {
    longer := Sends(steps, row);
    var s := Run(longer);
    var ids := IdSet(s.subs[0].delivery.ids);
    assert s.subs[0].delivery.ids == [row.id];
    assert s.subs[0].delivery.ids[0] in ids;
    assert Without([row], ids) == [];
    longer, s := Extend(longer, Acknowledge(0, true));
  }

  /** Two inserts, and the second becomes visible first. */
  lemma SecondFirst(first: Row, second: Row) returns (steps: seq<Step>)
    requires first.id == 0 && second.id == 1
    ensures Run(steps) == State([second], {first}, 2, 0, [Sub([], [], Idle, false, false, {})], 0, {1}, {}, {})
  {
    var s;
    steps, s := Extend([], Allocate(first.kind, first.expires));
    steps, s := Extend(steps, Allocate(second.kind, second.expires));
    steps, s := Extend(steps, Appear(second));
    assert s.inserting == {first};
    steps, s := Extend(steps, Subscribe);
  }

  /** So it does happen: the first is delivered after the second. */
  lemma OutOfOrderDelivery(first: Row, second: Row) returns (steps: seq<Step>)
    requires first.id == 0 && second.id == 1 && first.expires > 0 && second.expires > 0
    ensures |Run(steps).subs| == 1 && Run(steps).subs[0].sent == [1, 0]
  {
    steps := SecondFirst(first, second);
    steps := Delivers(steps, second);
    var s;
    steps, s := Extend(steps, Appear(first));
    assert s.table == [first];
    steps := Delivers(steps, first);
  }

  lemma Extend(steps: seq<Step>, step: Step) returns (longer: seq<Step>, s: State)
    ensures s == Run(longer) == if Enabled(Run(steps), step) then Next(Run(steps), step) else Run(steps)
  {
    longer := steps + [step];
    assert longer[..|steps|] == steps;
    s := Run(longer);
  }

  predicate AllBelow(ids: set<nat>, id: nat) {
    forall x :: x in ids ==> x < id
  }

  /** Inserts become visible in the order of their ids. */
  ghost predicate InIdOrder(steps: seq<Step>) {
    |steps| > 0 ==>
      var step := steps[|steps| - 1];
      && InIdOrder(steps[..|steps| - 1])
      && (step.Appear? ==> AllBelow(Run(steps[..|steps| - 1]).visible, step.row.id))
  }

  ghost predicate NeverLate(sub: Sub) {
    sub.late == {} && (sub.delivery.Drained? ==> sub.delivery.missed == {})
  }

  lemma NoticesInTime(visible: set<nat>, sub: Sub, id: nat)
    requires SubVisible(visible, sub) && AllBelow(visible, id)
    ensures Noticing(sub, id) == sub
  {}

  lemma NeverLateStep(s: State, step: Step, k: nat)
    requires Enabled(s, step) && k < |s.subs| && NeverLate(s.subs[k])
    requires step.Appear? ==> Noticing(s.subs[k], step.row.id) == s.subs[k]
    ensures NeverLate(Next(s, step).subs[k])
  {}

  /** In such a run nothing is ever late for anybody, so the order is exact. */
  lemma {:induction false} NothingLate(steps: seq<Step>, k: nat)
    requires InIdOrder(steps) && k < |Run(steps).subs|
    ensures NeverLate(Run(steps).subs[k])
  {
    var s, step := Run(steps[..|steps| - 1]), steps[|steps| - 1];
    if k < |s.subs| {
      NothingLate(steps[..|steps| - 1], k);
      if Enabled(s, step) {
        EventsAlways(steps[..|steps| - 1]);
        if step.Appear? {
          NoticesInTime(s.visible, s.subs[k], step.row.id);
        }
        NeverLateStep(s, step, k);
      }
    }
  }

  /** Only a send changes what was sent to a subscriber. */
  lemma OnlySendsSend(s: State, step: Step, k: nat)
    requires k < |s.subs| && Enabled(s, step) && Next(s, step).subs[k].sent != s.subs[k].sent
    ensures step == Send(k) && Next(s, step).subs[k] == SubAfter(s, step)
  {}

  /** A step that sends to a subscriber sends to the current one, whose channel is open
      and has room for everything that was drained. */
  lemma SendsOnlyToCurrent(steps: seq<Step>, step: Step, k: nat)
    requires var s := Run(steps); k < |s.subs| && Enabled(s, step) && Next(s, step).subs[k].sent != s.subs[k].sent
    ensures var s := Run(steps);
            && s.current == k && !s.subs[k].closed && step == Send(k)
            && |Next(s, step).subs[k].channel| <= CAPACITY
            && Next(s, step).subs[k].sent == s.subs[k].sent + Ids(s.subs[k].delivery.rows)
  {
    EventsAlways(steps);
    OnlySendsSend(Run(steps), step, k);
    SendStep(Run(steps), k);
  }
}
