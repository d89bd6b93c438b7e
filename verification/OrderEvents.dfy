/**
 Order status events over server-sent events: the in-memory history with its listeners, and the streams
 of the controller that replay what a client missed and then follow.

 A stream's output stays in the tables after it closes.  `accepted` (every event an order's history ever took)
 and `joins` (when a stream began and ended, and with which header) are notes no step looks at.
 */
module OrderEvents {
  import opened Wrappers

  const HISTORY_LIMIT: int := 100

  datatype StatusEvent = StatusEvent(id: int, orderId: int, status: int)

  /** What Number(header) can be. */
  datatype Num = NaN | NegativeInfinity | Value(value: real) | PositiveInfinity

  /** id > n, and id <= n: with NaN both are false. */
  predicate Exceeds(id: int, n: Num) { n.NegativeInfinity? || (n.Value? && id as real > n.value) }

  predicate AtMost(id: int, n: Num) { n.PositiveInfinity? || (n.Value? && id as real <= n.value) }

  datatype Stream = Stream(orderId: int, lastSentId: Num, out: seq<StatusEvent>)

  datatype Tables = Tables(history: map<int, seq<StatusEvent>>, listeners: map<int, set<int>>, streams: map<int, Stream>)

  function HistoryOf(t: Tables, o: int): seq<StatusEvent> { if o in t.history then t.history[o] else [] }

  function ListenersOf(t: Tables, o: int): set<int> { if o in t.listeners then t.listeners[o] else {} }

  predicate Accepts(h: seq<StatusEvent>, e: StatusEvent) { h == [] || h[|h| - 1].id < e.id }

  function Push(h: seq<StatusEvent>, e: StatusEvent): seq<StatusEvent> {
    if |h| + 1 > HISTORY_LIMIT then h[1..] + [e] else h + [e]
  }

  /** writeEvent */
  function Emit(st: Stream, e: StatusEvent): Stream {
    if AtMost(e.id, st.lastSentId) then st else Stream(st.orderId, Value(e.id as real), st.out + [e])
  }

  function EmitAll(st: Stream, es: seq<StatusEvent>): Stream {
    if es == [] then st else Emit(EmitAll(st, es[..|es| - 1]), es[|es| - 1])
  }

  /** getAfter's filter. */
  function After(es: seq<StatusEvent>, n: Num): seq<StatusEvent> {
    if es == [] then []
    else After(es[..|es| - 1], n) + if Exceeds(es[|es| - 1].id, n) then [es[|es| - 1]] else []
  }

  function EmitTo(streams: map<int, Stream>, listeners: set<int>, e: StatusEvent): map<int, Stream> {
    map k | k in streams :: if k in listeners then Emit(streams[k], e) else streams[k]
  }

  function Record(t: Tables, e: StatusEvent): Tables {
    if Accepts(HistoryOf(t, e.orderId), e)
    then Tables(t.history[e.orderId := Push(HistoryOf(t, e.orderId), e)], t.listeners,
                EmitTo(t.streams, ListenersOf(t, e.orderId), e))
    else t
  }

  function Subscribe(t: Tables, o: int, k: int): Tables { t.(listeners := t.listeners[o := ListenersOf(t, o) + {k}]) }

  function Unsubscribe(t: Tables, o: int, k: int): Tables {
    t.(listeners := if ListenersOf(t, o) - {k} == {} then t.listeners - {o} else t.listeners[o := ListenersOf(t, o) - {k}])
  }

  /** A new stream: subscribe, then replay. */
  function Connect(t: Tables, k: int, o: int, header: Num): Tables {
    var u := Subscribe(t, o, k);
    u.(streams := u.streams[k := EmitAll(Stream(o, header, []), After(HistoryOf(t, o), header))])
  }

  lemma SomeMember(s: set<int>)
    requires s != {}
    ensures exists k :: k in s
  {
    if forall k :: k !in s {
      assert false;
    }
  }

  class OrderNotify {
    var history: map<int, seq<StatusEvent>>
    var listeners: map<int, set<int>>
    var streams: map<int, Stream>

    function Contents(): Tables reads this { Tables(history, listeners, streams) }

    constructor ()
      ensures Contents() == Tables(map[], map[], map[])
    {
      history, listeners, streams := map[], map[], map[];
    }

    method RecordEvent(e: StatusEvent)
      modifies this
      ensures Contents() == Record(old(Contents()), e)
    {
      var h := if e.orderId in history then history[e.orderId] else [];
      if |h| > 0 && h[|h| - 1].id >= e.id {
        return;
      }
      h := h + [e];
      if |h| > HISTORY_LIMIT {
        h := h[1..];
      }
      history := history[e.orderId := h];
      assert h == Push(HistoryOf(old(Contents()), e.orderId), e);
      NotifyListeners(if e.orderId in listeners then listeners[e.orderId] else {}, e);
    }

    /** for (const listener of …) listener(event) */
    method NotifyListeners(called: set<int>, e: StatusEvent)
      modifies this`streams
      ensures streams == EmitTo(old(streams), called, e)
    {
      var left := called;
      while left != {}
        invariant left <= called && streams == EmitTo(old(streams), called - left, e)
      {
        SomeMember(left);
        var k :| k in left;
        if k in streams {
          streams := streams[k := Emit(streams[k], e)];
        }
        left := left - {k};
      }
      assert called - left == called;
    }

    method GetAfter(o: int, lastEventId: Num) returns (es: seq<StatusEvent>)
      ensures es == After(HistoryOf(Contents(), o), lastEventId)
    {
      var h := if o in history then history[o] else [];
      es := [];
      var i := 0;
      while i < |h|
        invariant 0 <= i <= |h| && es == After(h[..i], lastEventId)
      {
        assert h[..i + 1][..i] == h[..i];
        if Exceeds(h[i].id, lastEventId) {
          es := es + [h[i]];
        }
        i := i + 1;
      }
      assert h[..i] == h;
    }

    method SubscribeStream(o: int, k: int)
      modifies this`listeners
      ensures Contents() == Subscribe(old(Contents()), o, k)
    {
      var ls := if o in listeners then listeners[o] else {};
      listeners := listeners[o := ls + {k}];
    }

    method UnsubscribeStream(o: int, k: int)
      modifies this`listeners
      ensures Contents() == Unsubscribe(old(Contents()), o, k)
    {
      var ls := (if o in listeners then listeners[o] else {}) - {k};
      if ls == {} {
        listeners := listeners - {o};
      } else {
        listeners := listeners[o := ls];
      }
    }

    /** The controller's `events`. */
    method Events(k: int, o: int, header: Option<Num>)
      modifies this
      ensures Contents() == Connect(old(Contents()), k, o, if header.None? then Value(0.0) else header.value)
    {
      var lastEventId := if header.None? then Value(0.0) else header.value;
      SubscribeStream(o, k);
      var es := GetAfter(o, lastEventId);
      var connected := Stream(o, lastEventId, []);
      var st := connected;
      var i := 0;
      while i < |es|
        invariant 0 <= i <= |es| && st == EmitAll(connected, es[..i])
        invariant Contents() == Subscribe(old(Contents()), o, k)
      {
        assert es[..i + 1][..i] == es[..i];
        st := Emit(st, es[i]);
        i := i + 1;
      }
      assert es[..i] == es;
      streams := streams[k := st];
    }
  }

  /* ---------- runs ---------- */

  datatype Join = Join(header: Num, at: nat, left: Option<nat>)

  datatype State = State(tables: Tables, accepted: map<int, seq<StatusEvent>>, joins: map<int, Join>)

  datatype Event =
    | RecordIt(e: StatusEvent)
    | Open(stream: int, order: int, header: Num)
    | Close(stream: int)

  function AcceptedOf(s: State, o: int): seq<StatusEvent> { if o in s.accepted then s.accepted[o] else [] }

  predicate IsOpen(s: State, k: int) {
    k in s.tables.streams && k in ListenersOf(s.tables, s.tables.streams[k].orderId)
  }

  predicate Enabled(s: State, ev: Event) {
    match ev
    case RecordIt(e) => true
    case Open(k, o, header) => k !in s.tables.streams
    case Close(k) => IsOpen(s, k) && k in s.joins
  }

  function Apply(s: State, ev: Event): State {
    if !Enabled(s, ev) then s
    else match ev
      case RecordIt(e) =>
        State(Record(s.tables, e),
              if Accepts(HistoryOf(s.tables, e.orderId), e)
              then s.accepted[e.orderId := AcceptedOf(s, e.orderId) + [e]] else s.accepted,
              s.joins)
      case Open(k, o, header) =>
        State(Connect(s.tables, k, o, header), s.accepted, s.joins[k := Join(header, |AcceptedOf(s, o)|, None)])
      case Close(k) =>
        var o := s.tables.streams[k].orderId;
        State(Unsubscribe(s.tables, o, k), s.accepted, s.joins[k := s.joins[k].(left := Some(|AcceptedOf(s, o)|))])
  }

  function Run(events: seq<Event>): State {
    if events == [] then State(Tables(map[], map[], map[]), map[], map[])
    else Apply(Run(events[..|events| - 1]), events[|events| - 1])
  }

  /* ---------- what the notes mean ---------- */

  predicate Ascending(es: seq<StatusEvent>) { forall i, j | 0 <= i < j < |es| :: es[i].id < es[j].id }

  /** The last hundred. */
  function Retained(es: seq<StatusEvent>): seq<StatusEvent> {
    if |es| > HISTORY_LIMIT then es[|es| - HISTORY_LIMIT..] else es
  }

  /** Live events go out unless the client already claimed a later id. */
  function Live(es: seq<StatusEvent>, n: Num): seq<StatusEvent> {
    if es == [] then []
    else Live(es[..|es| - 1], n) + if AtMost(es[|es| - 1].id, n) then [] else [es[|es| - 1]]
  }

  /** What a client that joined when `at` of the accepted events were there, with this header, should have got. */
  function Due(accepted: seq<StatusEvent>, at: nat, header: Num): seq<StatusEvent>
    requires at <= |accepted|
  {
    After(Retained(accepted[..at]), header) + Live(accepted[at..], header)
  }

  /** What was accepted while the stream was open, and before. */
  function Seen(s: State, k: int): seq<StatusEvent>
    requires k in s.tables.streams && k in s.joins
  {
    var all := AcceptedOf(s, s.tables.streams[k].orderId);
    if s.joins[k].left.Some? && s.joins[k].left.value <= |all| then all[..s.joins[k].left.value] else all
  }

  function LastOf(out: seq<StatusEvent>, header: Num): Num {
    if out == [] then header else Value(out[|out| - 1].id as real)
  }

  predicate HistoryInv(s: State, o: int) {
    HistoryOf(s.tables, o) == Retained(AcceptedOf(s, o)) && Ascending(AcceptedOf(s, o))
  }

  predicate StreamInv(s: State, k: int)
    requires k in s.tables.streams
  {
    var st := s.tables.streams[k];
    k in s.joins
    && (s.joins[k].left.Some? ==> s.joins[k].left.value <= |AcceptedOf(s, st.orderId)|)
    && s.joins[k].at <= |Seen(s, k)|
    && st.out == Due(Seen(s, k), s.joins[k].at, s.joins[k].header)
    && st.lastSentId == LastOf(st.out, s.joins[k].header)
    && (IsOpen(s, k) <==> s.joins[k].left.None?)
  }

  /** A listener listens to its stream's own order. */
  ghost predicate ListenersInv(t: Tables) {
    forall o, k | o in t.listeners && k in t.listeners[o] :: k in t.streams && t.streams[k].orderId == o
  }

  ghost predicate Inv(s: State) {
    (forall o :: HistoryInv(s, o))
    && (forall k | k in s.tables.streams :: StreamInv(s, k))
    && ListenersInv(s.tables)
  }

  lemma {:induction false} LiveOfAppended(es: seq<StatusEvent>, e: StatusEvent, n: Num)
    ensures Live(es + [e], n) == Live(es, n) + if AtMost(e.id, n) then [] else [e]
  {
    assert (es + [e])[..|es|] == es;
  }

  lemma {:induction false} AfterIsIn(es: seq<StatusEvent>, n: Num, e: StatusEvent)
    requires e in After(es, n)
    ensures e in es && Exceeds(e.id, n) && !AtMost(e.id, n)
  {
    if es != [] && e in After(es[..|es| - 1], n) {
      AfterIsIn(es[..|es| - 1], n, e);
    }
  }

  lemma {:induction false} LiveIsIn(es: seq<StatusEvent>, n: Num, e: StatusEvent)
    requires e in Live(es, n)
    ensures e in es && !AtMost(e.id, n)
  {
    if es != [] && e in Live(es[..|es| - 1], n) {
      LiveIsIn(es[..|es| - 1], n, e);
    }
  }

  lemma RetainedIsIn(es: seq<StatusEvent>, e: StatusEvent)
    requires e in Retained(es)
    ensures e in es
  {
  }

  lemma DueIsIn(accepted: seq<StatusEvent>, at: nat, header: Num, e: StatusEvent)
    requires at <= |accepted| && e in Due(accepted, at, header)
    ensures e in accepted && !AtMost(e.id, header)
  {
    if e in After(Retained(accepted[..at]), header) {
      AfterIsIn(Retained(accepted[..at]), header, e);
      RetainedIsIn(accepted[..at], e);
    } else {
      LiveIsIn(accepted[at..], header, e);
    }
  }

  lemma DueOfAppended(accepted: seq<StatusEvent>, at: nat, header: Num, e: StatusEvent)
    requires at <= |accepted|
    ensures Due(accepted + [e], at, header) == Due(accepted, at, header) + if AtMost(e.id, header) then [] else [e]
  {
    assert (accepted + [e])[..at] == accepted[..at] && (accepted + [e])[at..] == accepted[at..] + [e];
    LiveOfAppended(accepted[at..], e, header);
  }

  /** `lastSentId` stands in for the header: comparing with either decides the same. */
  lemma EmitFollows(st: Stream, header: Num, e: StatusEvent)
    requires st.lastSentId == LastOf(st.out, header)
    requires st.out != [] ==> st.out[|st.out| - 1].id < e.id && !AtMost(st.out[|st.out| - 1].id, header)
    ensures Emit(st, e).out == st.out + (if AtMost(e.id, header) then [] else [e])
    ensures Emit(st, e).lastSentId == LastOf(Emit(st, e).out, header)
  {
  }

  /** One more accepted event, seen from an open stream. */
  lemma EmitIsDue(st: Stream, accepted: seq<StatusEvent>, at: nat, header: Num, e: StatusEvent)
    requires at <= |accepted| && Ascending(accepted + [e])
    requires st.out == Due(accepted, at, header) && st.lastSentId == LastOf(st.out, header)
    ensures Emit(st, e).out == Due(accepted + [e], at, header)
    ensures Emit(st, e).lastSentId == LastOf(Emit(st, e).out, header)
  {
    DueOfAppended(accepted, at, header, e);
    if st.out != [] {
      var last := st.out[|st.out| - 1];
      DueIsIn(accepted, at, header, last);
      EarlierIsSmaller(accepted, e, last);
    }
    EmitFollows(st, header, e);
  }

  lemma EarlierIsSmaller(accepted: seq<StatusEvent>, e: StatusEvent, a: StatusEvent)
    requires Ascending(accepted + [e]) && a in accepted
    ensures a.id < e.id
  {
    var i :| 0 <= i < |accepted| && accepted[i] == a;
    assert (accepted + [e])[i].id < (accepted + [e])[|accepted|].id;
  }

  lemma {:induction false} AfterAscends(es: seq<StatusEvent>, n: Num)
    requires Ascending(es)
    ensures Ascending(After(es, n))
  {
    if es != [] {
      var before := es[..|es| - 1];
      AfterAscends(before, n);
      forall e | e in After(before, n) ensures e.id < es[|es| - 1].id {
        AfterIsIn(before, n, e);
      }
    }
  }

  /** A replay skips nothing: its events ascend and all exceed the header. */
  lemma {:induction false} ReplaySendsAll(o: int, header: Num, es: seq<StatusEvent>)
    requires Ascending(es) && forall i | 0 <= i < |es| :: !AtMost(es[i].id, header)
    ensures EmitAll(Stream(o, header, []), es) == Stream(o, LastOf(es, header), es)
  {
    if es != [] {
      var before, last := es[..|es| - 1], es[|es| - 1];
      ReplaySendsAll(o, header, before);
      if before != [] {
        assert before[|before| - 1] == es[|es| - 2];
        assert es[|es| - 2].id < last.id;
      }
      EmitFollows(EmitAll(Stream(o, header, []), before), header, last);
      assert before + [last] == es;
    }
  }

  lemma PushIsRetained(accepted: seq<StatusEvent>, e: StatusEvent)
    ensures Push(Retained(accepted), e) == Retained(accepted + [e])
  {
  }

  lemma AcceptsAscends(accepted: seq<StatusEvent>, e: StatusEvent)
    requires Ascending(accepted) && Accepts(Retained(accepted), e)
    ensures Ascending(accepted + [e])
  {
    if accepted != [] {
      var r := Retained(accepted);
      assert r[|r| - 1] == accepted[|accepted| - 1];
    }
  }

  lemma RecordKeepsHistories(s: State, e: StatusEvent, o: int)
    requires Inv(s)
    ensures HistoryInv(Apply(s, RecordIt(e)), o)
  {
    assert HistoryInv(s, o) && HistoryInv(s, e.orderId);
    if o == e.orderId && Accepts(HistoryOf(s.tables, o), e) {
      PushIsRetained(AcceptedOf(s, o), e);
      AcceptsAscends(AcceptedOf(s, o), e);
    }
  }

  /** A stream that is closed, or follows another order, does not notice. */
  lemma RecordPassesBy(s: State, e: StatusEvent, k: int)
    requires Inv(s) && k in s.tables.streams && (s.tables.streams[k].orderId != e.orderId || !IsOpen(s, k))
    ensures StreamInv(Apply(s, RecordIt(e)), k)
  {
    var t := Apply(s, RecordIt(e));
    assert StreamInv(s, k);
    assert k !in ListenersOf(s.tables, e.orderId);
    assert t.tables.streams[k] == s.tables.streams[k];
    assert Seen(t, k) == Seen(s, k);
  }

  lemma RecordReaches(s: State, e: StatusEvent, k: int)
    requires Inv(s) && IsOpen(s, k) && s.tables.streams[k].orderId == e.orderId
    requires Accepts(HistoryOf(s.tables, e.orderId), e)
    ensures StreamInv(Apply(s, RecordIt(e)), k)
  {
    var t := Apply(s, RecordIt(e));
    var all := AcceptedOf(s, e.orderId);
    assert StreamInv(s, k) && HistoryInv(s, e.orderId);
    AcceptsAscends(all, e);
    EmitIsDue(s.tables.streams[k], all, s.joins[k].at, s.joins[k].header, e);
    assert t.tables.streams[k] == Emit(s.tables.streams[k], e);
    assert Seen(t, k) == all + [e];
  }

  lemma RecordKeepsStream(s: State, e: StatusEvent, k: int)
    requires Inv(s) && k in s.tables.streams
    ensures StreamInv(Apply(s, RecordIt(e)), k)
  {
    if s.tables.streams[k].orderId != e.orderId || !IsOpen(s, k) {
      RecordPassesBy(s, e, k);
    } else if Accepts(HistoryOf(s.tables, e.orderId), e) {
      RecordReaches(s, e, k);
    } else {
      assert StreamInv(s, k);
    }
  }

  lemma RecordKeepsInv(s: State, e: StatusEvent)
    requires Inv(s)
    ensures Inv(Apply(s, RecordIt(e)))
  {
    forall o ensures HistoryInv(Apply(s, RecordIt(e)), o) {
      RecordKeepsHistories(s, e, o);
    }
    forall k | k in s.tables.streams ensures StreamInv(Apply(s, RecordIt(e)), k) {
      RecordKeepsStream(s, e, k);
    }
  }

  lemma ReplayOfHistory(o: int, header: Num, h: seq<StatusEvent>)
    requires Ascending(h)
    ensures EmitAll(Stream(o, header, []), After(h, header)) == Stream(o, LastOf(After(h, header), header), After(h, header))
  {
    var es := After(h, header);
    AfterAscends(h, header);
    forall i | 0 <= i < |es| ensures !AtMost(es[i].id, header) {
      AfterIsIn(h, header, es[i]);
    }
    ReplaySendsAll(o, header, es);
  }

  lemma OpenedStreamInv(s: State, k: int, o: int, header: Num)
    requires Inv(s) && k !in s.tables.streams
    ensures StreamInv(Apply(s, Open(k, o, header)), k)
  {
    var t := Apply(s, Open(k, o, header));
    assert HistoryInv(s, o);
    var all := AcceptedOf(s, o);
    ReplayOfHistory(o, header, Retained(all));
    assert Seen(t, k) == all && all[..|all|] == all && all[|all|..] == [];
  }

  lemma ConnectKeepsListeners(t: Tables, k: int, o: int, header: Num)
    requires ListenersInv(t) && k !in t.streams
    ensures ListenersInv(Connect(t, k, o, header))
  {
    var u := Connect(t, k, o, header);
    EmitAllKeepsOrder(Stream(o, header, []), After(HistoryOf(t, o), header));
    forall p, j | p in u.listeners && j in u.listeners[p] ensures j in u.streams && u.streams[j].orderId == p {
      if j != k {
        assert p in t.listeners && j in t.listeners[p];
      }
    }
  }

  lemma {:induction false} EmitAllKeepsOrder(st: Stream, es: seq<StatusEvent>)
    ensures EmitAll(st, es).orderId == st.orderId
  {
    if es != [] {
      EmitAllKeepsOrder(st, es[..|es| - 1]);
    }
  }

  lemma OpenKeepsInv(s: State, k: int, o: int, header: Num)
    requires Inv(s) && k !in s.tables.streams
    ensures Inv(Apply(s, Open(k, o, header)))
  {
    var t := Apply(s, Open(k, o, header));
    ConnectKeepsListeners(s.tables, k, o, header);
    forall p ensures HistoryInv(t, p) {
      assert HistoryInv(s, p);
    }
    forall j | j in t.tables.streams ensures StreamInv(t, j) {
      if j == k {
        OpenedStreamInv(s, k, o, header);
      } else {
        OpenKeepsStream(s, k, o, header, j);
      }
    }
  }

  lemma OpenKeepsStream(s: State, k: int, o: int, header: Num, j: int)
    requires Inv(s) && k !in s.tables.streams && j in s.tables.streams
    ensures StreamInv(Apply(s, Open(k, o, header)), j)
  {
    var t := Apply(s, Open(k, o, header));
    assert StreamInv(s, j);
    assert t.tables.streams[j] == s.tables.streams[j] && t.joins[j] == s.joins[j];
    assert Seen(t, j) == Seen(s, j);
    assert IsOpen(t, j) <==> IsOpen(s, j);
  }

  lemma CloseKeepsInv(s: State, k: int)
    requires Inv(s) && Enabled(s, Close(k))
    ensures Inv(Apply(s, Close(k)))
  {
    var t := Apply(s, Close(k));
    var o := s.tables.streams[k].orderId;
    forall p ensures HistoryInv(t, p) {
      assert HistoryInv(s, p);
    }
    forall j | j in t.tables.streams ensures StreamInv(t, j) {
      assert StreamInv(s, j);
      assert ListenersOf(t.tables, o) == ListenersOf(s.tables, o) - {k};
      assert Seen(t, j) == Seen(s, j);
    }
  }

  lemma {:induction false} InvForever(events: seq<Event>)
    ensures Inv(Run(events))
  {
    if events != [] {
      var before, ev := Run(events[..|events| - 1]), events[|events| - 1];
      InvForever(events[..|events| - 1]);
      if Enabled(before, ev) {
        match ev
        case RecordIt(e) => RecordKeepsInv(before, e);
        case Open(k, o, header) => OpenKeepsInv(before, k, o, header);
        case Close(k) => CloseKeepsInv(before, k);
      }
    }
  }

  /* ---------- the theorems ---------- */

  /** What is retained is the last hundred, or everything there is. */
  lemma RetainedIsLastHundred(es: seq<StatusEvent>)
    ensures |Retained(es)| == if |es| <= 100 then |es| else 100
    ensures forall i :: 0 <= i < |Retained(es)| ==> Retained(es)[i] == es[|es| - |Retained(es)| + i]
  {
  }

  /** In every run an order's history is the last hundred events it accepted, in strictly ascending id. */
  lemma HistoryIsLastHundred(events: seq<Event>, o: int)
    ensures HistoryOf(Run(events).tables, o) == Retained(AcceptedOf(Run(events), o))
    ensures Ascending(AcceptedOf(Run(events), o))
  {
    InvForever(events);
    assert HistoryInv(Run(events), o);
  }

  /** An event is refused exactly when one at least as new was accepted before, retained or not. */
  lemma RefusedWhenOld(events: seq<Event>, e: StatusEvent)
    ensures AcceptedOf(Run(events + [RecordIt(e)]), e.orderId) == AcceptedOf(Run(events), e.orderId)
       <==> exists a :: a in AcceptedOf(Run(events), e.orderId) && a.id >= e.id
  {
    var s := Run(events);
    var all := AcceptedOf(s, e.orderId);
    assert (events + [RecordIt(e)])[..|events|] == events;
    HistoryIsLastHundred(events, e.orderId);
    if Accepts(Retained(all), e) {
      AcceptsAscends(all, e);
      forall a | a in all ensures a.id < e.id {
        EarlierIsSmaller(all, e, a);
      }
    } else {
      var r := Retained(all);
      assert r[|r| - 1] == all[|all| - 1] && all[|all| - 1] in all;
    }
  }

  /** A stream has sent exactly the retained events after its header, then the later accepted ones above it. */
  lemma StreamSendsWhatIsDue(events: seq<Event>, k: int)
    requires k in Run(events).tables.streams
    ensures var s := Run(events);
            k in s.joins && s.joins[k].at <= |Seen(s, k)|
            && s.tables.streams[k].out == Due(Seen(s, k), s.joins[k].at, s.joins[k].header)
  {
    InvForever(events);
    assert StreamInv(Run(events), k);
  }

  lemma {:induction false} LiveIsAll(es: seq<StatusEvent>, n: Num)
    requires forall e | e in es :: !AtMost(e.id, n)
    ensures Live(es, n) == es
  {
    if es != [] {
      LiveIsAll(es[..|es| - 1], n);
      assert es[..|es| - 1] + [es[|es| - 1]] == es;
    }
  }

  lemma {:induction false} LiveIsShorter(es: seq<StatusEvent>, n: Num)
    ensures |Live(es, n)| <= |es|
    ensures es != [] && AtMost(es[0].id, n) ==> |Live(es, n)| < |es|
  {
    if es != [] {
      LiveIsShorter(es[..|es| - 1], n);
    }
  }

  /** Every event accepted after the stream began is sent, exactly when the header does not cover the first of them. */
  lemma EveryLaterEventIsSentIff(events: seq<Event>, k: int)
    requires k in Run(events).tables.streams
    ensures var s := Run(events);
            k in s.joins && s.joins[k].at <= |Seen(s, k)|
            && var replayed, later := After(Retained(Seen(s, k)[..s.joins[k].at]), s.joins[k].header), Seen(s, k)[s.joins[k].at..];
               s.tables.streams[k].out == replayed + later <==> later == [] || !AtMost(later[0].id, s.joins[k].header)
  {
    var s := Run(events);
    InvForever(events);
    assert StreamInv(s, k) && HistoryInv(s, s.tables.streams[k].orderId);
    var header := s.joins[k].header;
    LaterSentIff(Seen(s, k), s.joins[k].at, header);
  }

  lemma LaterSentIff(seen: seq<StatusEvent>, at: nat, header: Num)
    requires Ascending(seen) && at <= |seen|
    ensures var replayed, later := After(Retained(seen[..at]), header), seen[at..];
            Due(seen, at, header) == replayed + later <==> later == [] || !AtMost(later[0].id, header)
  {
    var replayed, later := After(Retained(seen[..at]), header), seen[at..];
    SameStart(replayed, Live(later, header), later);
    if later != [] && !AtMost(later[0].id, header) {
      forall e | e in later ensures !AtMost(e.id, header) {
        var i :| 0 <= i < |later| && later[i] == e;
        assert seen[at + i] == e && seen[at] == later[0];
      }
      LiveIsAll(later, header);
    } else {
      LiveIsShorter(later, header);
    }
  }

  /** It does happen: with a header beyond the newest event, an accepted event is not sent. */
  lemma HeaderBeyondSilences()
    ensures var s := Run([Open(1, 5, Value(10.0)), RecordIt(StatusEvent(3, 5, 0))]);
            1 in s.tables.streams && IsOpen(s, 1) && AcceptedOf(s, 5) == [StatusEvent(3, 5, 0)] && s.tables.streams[1].out == []
  {
    var open, record := Open(1, 5, Value(10.0)), RecordIt(StatusEvent(3, 5, 0));
    assert [open, record][..1] == [open] && [open][..0] == [];
    var s1 := Run([open]);
    assert s1 == Apply(Run([]), open);
    assert s1.tables.streams[1] == Stream(5, Value(10.0), []);
    assert Run([open, record]) == Apply(s1, record);
  }

  lemma {:induction false} AfterOfAscending(es: seq<StatusEvent>, n: Num, p: nat)
    requires Ascending(es) && n.Value? && p <= |es|
    requires forall i | 0 <= i < |es| :: es[i].id as real > n.value <==> i >= p
    ensures After(es, n) == es[p..]
  {
    if es != [] {
      var before := es[..|es| - 1];
      if p == |es| {
        AfterOfAscending(before, n, p - 1);
      } else {
        AfterOfAscending(before, n, p);
        assert before[p..] + [es[|es| - 1]] == es[p..];
      }
    }
  }

  /** The retained events after event p: all of them, or the last hundred. */
  lemma AfterRetained(all: seq<StatusEvent>, p: nat)
    requires Ascending(all) && p < |all|
    ensures After(Retained(all), Value(all[p].id as real))
         == if |all| - (p + 1) <= HISTORY_LIMIT then all[p + 1..] else Retained(all)
  {
    var r := Retained(all);
    var skipped := |all| - |r|;
    var q := if p + 1 >= skipped then p + 1 - skipped else 0;
    forall i | 0 <= i < |r| ensures r[i].id as real > all[p].id as real <==> i >= q {
      assert r[i] == all[skipped + i];
    }
    AfterOfAscending(r, Value(all[p].id as real), q);
  }

  lemma {:induction false} LaterIsLive(seen: seq<StatusEvent>, at: nat, p: nat)
    requires Ascending(seen) && p < at <= |seen|
    ensures Live(seen[at..], Value(seen[p].id as real)) == seen[at..]
  {
    forall e | e in seen[at..] ensures e.id > seen[p].id {
      var i :| 0 <= i < |seen[at..]| && seen[at..][i] == e;
      assert seen[at + i] == e;
    }
    LiveIsAll(seen[at..], Value(seen[p].id as real));
  }

  lemma DueAfterEvent(seen: seq<StatusEvent>, at: nat, p: nat)
    requires Ascending(seen) && p < at <= |seen|
    ensures Due(seen, at, Value(seen[p].id as real)) == seen[p + 1..] <==> at - (p + 1) <= HISTORY_LIMIT
  {
    AfterRetained(seen[..at], p);
    LaterIsLive(seen, at, p);
    if at - (p + 1) <= HISTORY_LIMIT {
      assert seen[..at][p + 1..] + seen[at..] == seen[p + 1..];
    } else {
      assert |Due(seen, at, Value(seen[p].id as real))| == HISTORY_LIMIT + |seen[at..]|;
    }
  }

  /** Resuming after event p of the order: the client gets everything after it, once and in order,
      exactly when no more than a hundred events came in between. */
  lemma ResumeHasNoGap(events: seq<Event>, k: int, p: nat)
    requires k in Run(events).tables.streams && k in Run(events).joins
    requires p < Run(events).joins[k].at <= |Seen(Run(events), k)|
    requires Run(events).joins[k].header == Value(Seen(Run(events), k)[p].id as real)
    ensures var s := Run(events);
            s.tables.streams[k].out == Seen(s, k)[p + 1..] <==> s.joins[k].at - (p + 1) <= HISTORY_LIMIT
  {
    var s := Run(events);
    StreamSendsWhatIsDue(events, k);
    HistoryIsLastHundred(events, s.tables.streams[k].orderId);
    DueAfterEvent(Seen(s, k), s.joins[k].at, p);
  }

  lemma PartAscends(a: seq<StatusEvent>, b: seq<StatusEvent>)
    requires Ascending(a + b)
    ensures Ascending(a)
  {
    forall i, j | 0 <= i < j < |a| ensures a[i].id < a[j].id {
      assert (a + b)[i] == a[i] && (a + b)[j] == a[j];
    }
  }

  lemma SameStart(a: seq<StatusEvent>, b: seq<StatusEvent>, c: seq<StatusEvent>)
    ensures a + b == a + c <==> b == c
  {
    assert (a + b)[|a|..] == b && (a + c)[|a|..] == c;
  }

  lemma AtMostLast(es: seq<StatusEvent>, e: StatusEvent)
    requires Ascending(es) && e in es
    ensures e.id <= es[|es| - 1].id
  {
    var i :| 0 <= i < |es| && es[i] == e;
  }

  lemma AfterEndsLast(es: seq<StatusEvent>, n: Num)
    requires Ascending(es) && After(es, n) != []
    ensures After(es, n)[|After(es, n)| - 1] == es[|es| - 1]
  {
    var e := After(es, n)[0];
    AfterIsIn(es, n, e);
    AtMostLast(es, e);
  }

  lemma LiveEndsLast(es: seq<StatusEvent>, n: Num)
    requires es != [] && !AtMost(es[|es| - 1].id, n)
    ensures Live(es, n) != [] && Live(es, n)[|Live(es, n)| - 1] == es[|es| - 1]
  {
  }

  lemma NewestIsDue(accepted: seq<StatusEvent>, at: nat, header: Num)
    requires Ascending(accepted) && at <= |accepted| && Due(accepted, at, header) != []
    ensures accepted != [] && !AtMost(accepted[|accepted| - 1].id, header)
  {
    var e := Due(accepted, at, header)[0];
    DueIsIn(accepted, at, header, e);
    AtMostLast(accepted, e);
  }

  lemma RetainedAscends(es: seq<StatusEvent>)
    requires Ascending(es)
    ensures Ascending(Retained(es)) && |Retained(es)| <= |es| && (es != [] ==> Retained(es) != [])
    ensures es != [] ==> Retained(es)[|Retained(es)| - 1] == es[|es| - 1]
  {
  }

  /** A stream that sent anything has sent the newest event it saw. */
  lemma DueEndsLast(accepted: seq<StatusEvent>, at: nat, header: Num)
    requires Ascending(accepted) && at <= |accepted| && Due(accepted, at, header) != []
    ensures accepted != []
    ensures Due(accepted, at, header)[|Due(accepted, at, header)| - 1] == accepted[|accepted| - 1]
  {
    NewestIsDue(accepted, at, header);
    var replayed, live := After(Retained(accepted[..at]), header), Live(accepted[at..], header);
    assert Due(accepted, at, header) == replayed + live;
    if at < |accepted| {
      LiveEndsLast(accepted[at..], header);
    } else {
      assert live == [] && accepted[..at] == accepted;
      RetainedAscends(accepted);
      AfterEndsLast(Retained(accepted), header);
    }
  }

  /** An event newer than one that was due is due as well. */
  lemma NewerIsDue(before: seq<StatusEvent>, e: StatusEvent, left: nat, at: nat, header: Num)
    requires Ascending(before + [e]) && at <= left <= |before| && Due(before[..left], at, header) != []
    ensures !AtMost(e.id, header)
  {
    var a := Due(before[..left], at, header)[0];
    DueIsIn(before[..left], at, header, a);
    EarlierIsSmaller(before, e, a);
  }

  lemma DueExtendsByOne(seen: seq<StatusEvent>, left: nat, at: nat, header: Num)
    requires Ascending(seen) && at <= left < |seen| && Due(seen[..left], at, header) != []
    ensures Due(seen, at, header) == Due(seen[..|seen| - 1], at, header) + [seen[|seen| - 1]]
  {
    var before, e := seen[..|seen| - 1], seen[|seen| - 1];
    assert before[..left] == seen[..left] && before + [e] == seen;
    DueOfAppended(before, at, header, e);
    NewerIsDue(before, e, left, at, header);
  }

  /** Once something was due, every later event is. */
  lemma {:induction false} DueExtends(seen: seq<StatusEvent>, left: nat, at: nat, header: Num)
    requires Ascending(seen) && at <= left <= |seen| && Due(seen[..left], at, header) != []
    ensures Due(seen, at, header) == Due(seen[..left], at, header) + seen[left..]
  {
    if left == |seen| {
      assert seen[..left] == seen && seen[left..] == [];
    } else {
      var before := seen[..|seen| - 1];
      assert before[..left] == seen[..left];
      assert before[left..] + [seen[|seen| - 1]] == seen[left..];
      assert Due(before, at, header) == Due(seen[..left], at, header) + before[left..] by {
        DueExtends(before, left, at, header);
      }
      DueExtendsByOne(seen, left, at, header);
    }
  }

  lemma ReconnectDue(seen: seq<StatusEvent>, left: nat, at: nat, header: Num, again: nat)
    requires Ascending(seen) && 0 < left && at <= left <= again <= |seen| && Due(seen[..left], at, header) != []
    ensures Due(seen[..left], at, header) + Due(seen, again, Value(seen[left - 1].id as real)) == Due(seen, at, header)
       <==> again - left <= HISTORY_LIMIT
  {
    var out, resumed, rest := Due(seen[..left], at, header), Due(seen, again, Value(seen[left - 1].id as real)), seen[left..];
    assert Due(seen, at, header) == out + rest by {
      DueExtends(seen, left, at, header);
    }
    assert resumed == rest <==> again - left <= HISTORY_LIMIT by {
      DueAfterEvent(seen, again, left - 1);
    }
    SameStart(out, resumed, rest);
  }

  lemma LastReceived(seen: seq<StatusEvent>, left: nat, at: nat, header: Num)
    requires Ascending(seen) && at <= left <= |seen| && Due(seen[..left], at, header) != []
    ensures 0 < left && LastOf(Due(seen[..left], at, header), header) == Value(seen[left - 1].id as real)
  {
    assert seen[..left] + seen[left..] == seen;
    PartAscends(seen[..left], seen[left..]);
    DueEndsLast(seen[..left], at, header);
  }

  /** The client lost stream `k` after receiving something and came back as stream `m` with the last id it got. */
  predicate Reconnects(s: State, k: int, m: int) {
    k in s.tables.streams && m in s.tables.streams && k in s.joins && m in s.joins
    && s.tables.streams[k].orderId == s.tables.streams[m].orderId && s.tables.streams[k].out != []
    && s.joins[k].left.Some? && s.joins[k].left.value <= s.joins[m].at
    && s.joins[m].header == LastOf(s.tables.streams[k].out, s.joins[k].header)
  }

  lemma ReconnectSeen(s: State, k: int, m: int)
    requires Inv(s) && Reconnects(s, k, m)
    ensures s.joins[k].at <= s.joins[k].left.value <= s.joins[m].at <= |Seen(s, m)|
    ensures Ascending(Seen(s, m)) && Seen(s, k) == Seen(s, m)[..s.joins[k].left.value]
  {
    assert StreamInv(s, k) && StreamInv(s, m) && HistoryInv(s, s.tables.streams[k].orderId);
  }

  /** Over both streams the client has received what an unbroken one would have sent, exactly when
      at most a hundred events were accepted while it was away. */
  lemma ReconnectLosesNothing(events: seq<Event>, k: int, m: int)
    requires Reconnects(Run(events), k, m)
    ensures var s := Run(events);
            s.joins[k].at <= |Seen(s, m)|
            && (s.tables.streams[k].out + s.tables.streams[m].out == Due(Seen(s, m), s.joins[k].at, s.joins[k].header)
                <==> s.joins[m].at - s.joins[k].left.value <= HISTORY_LIMIT)
  {
    InvForever(events);
    ReconnectInState(Run(events), k, m);
  }

  lemma ReconnectInState(s: State, k: int, m: int)
    requires Inv(s) && Reconnects(s, k, m)
    ensures s.joins[k].at <= |Seen(s, m)|
    ensures s.tables.streams[k].out + s.tables.streams[m].out == Due(Seen(s, m), s.joins[k].at, s.joins[k].header)
       <==> s.joins[m].at - s.joins[k].left.value <= HISTORY_LIMIT
  {
    ReconnectSeen(s, k, m);
    var seen, left := Seen(s, m), s.joins[k].left.value;
    assert s.tables.streams[k].out == Due(seen[..left], s.joins[k].at, s.joins[k].header) by {
      assert StreamInv(s, k);
    }
    assert s.tables.streams[m].out == Due(seen, s.joins[m].at, s.joins[m].header) by {
      assert StreamInv(s, m);
    }
    LastReceived(seen, left, s.joins[k].at, s.joins[k].header);
    ReconnectDue(seen, left, s.joins[k].at, s.joins[k].header, s.joins[m].at);
  }
}
