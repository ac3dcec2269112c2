/**
 * Where executions come from: every one belongs to a SCSI command of the run, unless a Data-Out reaches the transfer
 * entry before a write has set it up (iscsi_session.c:37-43, request/data_out.c:20-54).
 */
module Origins {
  import opened Bytes
  import opened Lookup
  import opened Pdus
  import opened Negotiation
  import opened Model
  import opened Runs
  import opened Transfers
  import opened SessionSafety
  import opened Tags
  import opened FreshProcess

  /** A command the initiator has given: its CDB, and the tag of its transfer if it has R2Ts. */
  datatype Order = Order(cdb: seq<byte>, transfer: Option<int>)

  function OrderOf(x: Execution): Order
  {
    Order(x.cdb, x.transfer)
  }

  /** What a request orders in st: something if it is a command in a normal session. */
  function Ordered(st: State, e: Event): seq<Order>
    requires StepOk(st, e)
  {
    if !Normal(st) || !IsCommand(e) then []
    else if NeedsR2t(e.request) then [Order(Cdb(e.request), Some(Advance(st.session.transferTag, 1)))]
    else [Order(Cdb(e.request), None)]
  }

  function Orders(st: State, es: seq<Event>): seq<Order>
    requires Admissible(st, es)
    decreases |es|
  {
    if es == [] then []
    else
      var o := Step(st, es[0].request, es[0].reply);
      Ordered(st, es[0]) + if o.terminate then [] else Orders(o.state, es[1..])
  }

  /** Every execution was ordered. */
  predicate AllOrdered(log: seq<Execution>, orders: seq<Order>)
  {
    forall i :: 0 <= i < |log| ==> OrderOf(log[i]) in orders
  }

  /** The order the transfer entry stands for. */
  function EntryOrder(st: State): Order
  {
    Order(st.session.entry.cdb, Some(st.session.entry.tag))
  }

  /** The log grows by at most the execution x. */
  predicate LogGrows(before: seq<Execution>, after: seq<Execution>, x: Order)
  {
    before == after || (|after| == |before| + 1 && after[..|before|] == before && OrderOf(after[|before|]) == x)
  }

  lemma LogGrowsTo(before: seq<Execution>, after: seq<Execution>, x: Execution)
    requires after == before + [x]
    ensures LogGrows(before, after, OrderOf(x))
  {
  }

  // One request.

  lemma CommandOrders(st: State, e: Event, t: State)
    requires Normal(st) && StepOk(st, e) && IsCommand(e) && t == Step(st, e.request, e.reply).state
    ensures if NeedsR2t(e.request) then t.target == st.target && Ordered(st, e) == [EntryOrder(t)]
            else LogGrows(st.target.log, t.target.log, Order(Cdb(e.request), None)) && EntryOrder(t) == EntryOrder(st)
  {
    if !NeedsR2t(e.request) {
      RunCommandLog(st, e.request, e.reply);
      LogGrowsTo(st.target.log, t.target.log, Execution(Cdb(e.request), st.target.buffer, None));
    }
  }

  /** The Data-Out runs what the entry holds. */
  predicate RunsEntry(st: State, e: Event)
    requires StepOk(st, e)
  {
    && Normal(st) && Opcode(e.request) == SCSI_DATA_OUT && Gate(st, e.request).0
    && Addressed(st, e.request) && Ends(st.session.entry, e.request)
  }

  lemma DataOutOrders(st: State, e: Event, t: State)
    requires Normal(st) && StepOk(st, e) && Opcode(e.request) == SCSI_DATA_OUT
    requires t == Step(st, e.request, e.reply).state
    ensures EntryOrder(t) == EntryOrder(st) && t.session.entry.total == st.session.entry.total
    ensures if RunsEntry(st, e) then
              && LogGrows(st.target.log, t.target.log, EntryOrder(st)) && |t.target.log| == |st.target.log| + 1
            else t.target.log == st.target.log
  {
    GateFrame(st, e.request);
  }

  lemma OtherOrdersNothing(st: State, e: Event, t: State)
    requires Sound(st) && StepOk(st, e) && t == Step(st, e.request, e.reply).state
    requires !Normal(st) || (!IsCommand(e) && Opcode(e.request) != SCSI_DATA_OUT)
    ensures EntryOrder(t) == EntryOrder(st) && t.session.entry.total == st.session.entry.total
    ensures t.target.log == st.target.log && Ordered(st, e) == []
  {
    GateFrame(st, e.request);
    var g := st.(session := Gate(st, e.request).1);
    if Gate(st, e.request).0 && !InFullFeature(g) && Opcode(e.request) == LOGIN {
      LoginEffect(g, e.request);
      LoginTags(g, e.request);
    }
  }

  predicate Begins(st: State, e: Event)
  {
    Normal(st) && StartsWrite(e)
  }

  /** What one request does to the log and the entry, whatever it is. */
  lemma StepOrders(st: State, e: Event, t: State)
    requires Sound(st) && StepOk(st, e) && t == Step(st, e.request, e.reply).state
    ensures st.target.log == t.target.log
            || exists x :: LogGrows(st.target.log, t.target.log, x)
                           && (x in Ordered(st, e) || (RunsEntry(st, e) && x == EntryOrder(st)))
    ensures if Begins(st, e) then EntryOrder(t) in Ordered(st, e)
            else EntryOrder(t) == EntryOrder(st) && t.session.entry.total == st.session.entry.total
  {
    if Normal(st) && IsCommand(e) {
      CommandOrders(st, e, t);
      if !NeedsR2t(e.request) {
        CommandKeepsTotal(st, e, t);
        assert Ordered(st, e)[0] == Order(Cdb(e.request), None);
      }
    } else if Normal(st) && Opcode(e.request) == SCSI_DATA_OUT {
      DataOutOrders(st, e, t);
    } else {
      OtherOrdersNothing(st, e, t);
    }
  }

  lemma CommandKeepsTotal(st: State, e: Event, t: State)
    requires Normal(st) && StepOk(st, e) && IsCommand(e) && !NeedsR2t(e.request)
    requires t == Step(st, e.request, e.reply).state
    ensures t.session.entry == st.session.entry
  {
    RunCommandLog(st, e.request, e.reply);
  }

  lemma GrownOrdered(before: seq<Execution>, after: seq<Execution>, x: Order, orders: seq<Order>)
    requires AllOrdered(before, orders) && LogGrows(before, after, x) && x in orders
    ensures AllOrdered(after, orders)
  {
    forall i | 0 <= i < |after| ensures OrderOf(after[i]) in orders {
      if i < |before| && before != after {
        assert after[i] == before[i];
      }
    }
  }

  lemma MoreOrders(log: seq<Execution>, orders: seq<Order>, more: seq<Order>)
    requires AllOrdered(log, orders)
    ensures AllOrdered(log, orders + more)
  {
  }

  lemma StepOrdered(st: State, e: Event, t: State, orders: seq<Order>)
    requires Sound(st) && StepOk(st, e) && t == Step(st, e.request, e.reply).state
    requires AllOrdered(st.target.log, orders) && (RunsEntry(st, e) ==> EntryOrder(st) in orders)
    ensures AllOrdered(t.target.log, orders + Ordered(st, e))
  {
    StepOrders(st, e, t);
    MoreOrders(st.target.log, orders, Ordered(st, e));
    if st.target.log != t.target.log {
      var x :| LogGrows(st.target.log, t.target.log, x)
               && (x in Ordered(st, e) || (RunsEntry(st, e) && x == EntryOrder(st)));
      GrownOrdered(st.target.log, t.target.log, x, orders + Ordered(st, e));
    }
  }

  // From the first write on.

  lemma {:induction false} OrderedAfterWrite(st: State, es: seq<Event>, orders: seq<Order>)
    requires Sound(st) && Admissible(st, es) && AllOrdered(st.target.log, orders) && EntryOrder(st) in orders
    ensures AllOrdered(Run(st, es).target.log, orders + Orders(st, es))
    decreases |es|
  {
    if es == [] {
      assert orders + [] == orders;
    } else {
      var o := Step(st, es[0].request, es[0].reply);
      var all := orders + Ordered(st, es[0]);
      StepOrdered(st, es[0], o.state, orders);
      StepOrders(st, es[0], o.state);
      StepKeepsSound(st, es[0]);
      OrdersUnfold(st, es, orders, o);
      if !o.terminate {
        OrderedAfterWrite(o.state, es[1..], all);
      }
    }
  }

  lemma OrdersUnfold(st: State, es: seq<Event>, orders: seq<Order>, o: Outcome)
    requires Admissible(st, es) && es != [] && o == Step(st, es[0].request, es[0].reply)
    ensures orders + Orders(st, es)
            == orders + Ordered(st, es[0]) + if o.terminate then [] else Orders(o.state, es[1..])
  {
    ThreeInARow(orders, Ordered(st, es[0]), if o.terminate then [] else Orders(o.state, es[1..]));
  }

  lemma ThreeInARow(a: seq<Order>, b: seq<Order>, c: seq<Order>)
    ensures a + (b + c) == a + b + c
  {
  }

  // Before the first write.

  /** The entry of the process's start: no write has set it up. */
  predicate Untouched(st: State)
  {
    st.session.entry.tag == 0 && st.session.entry.total == 0
  }

  /** A Data-Out with tag 0, at offset 0 and without data. */
  predicate Stray(st: State, e: Event)
    requires StepOk(st, e)
  {
    && Normal(st) && Opcode(e.request) == SCSI_DATA_OUT && Gate(st, e.request).0
    && TransferTag(e.request) == 0 && BufferOffset(e.request) == 0 && DataLength(e.request) == 0
  }

  lemma StrayRunsEntry(st: State, e: Event)
    requires StepOk(st, e) && Untouched(st)
    ensures RunsEntry(st, e) <==> Stray(st, e)
  {
  }

  /** A stray Data-Out is served before the first write with R2Ts. */
  predicate StrayInRun(st: State, es: seq<Event>)
    requires Admissible(st, es)
    decreases |es|
  {
    es != []
    && var o := Step(st, es[0].request, es[0].reply);
       Stray(st, es[0]) || (!Begins(st, es[0]) && !o.terminate && StrayInRun(o.state, es[1..]))
  }

  lemma {:induction false} OrderedWithoutStray(st: State, es: seq<Event>, orders: seq<Order>)
    requires Sound(st) && Admissible(st, es) && AllOrdered(st.target.log, orders) && Untouched(st)
    requires !StrayInRun(st, es)
    ensures AllOrdered(Run(st, es).target.log, orders + Orders(st, es))
    decreases |es|
  {
    if es == [] {
      assert orders + [] == orders;
    } else {
      var o := Step(st, es[0].request, es[0].reply);
      var all := orders + Ordered(st, es[0]);
      StrayRunsEntry(st, es[0]);
      StepOrdered(st, es[0], o.state, orders);
      StepOrders(st, es[0], o.state);
      StepKeepsSound(st, es[0]);
      OrdersUnfold(st, es, orders, o);
      if !o.terminate {
        if Begins(st, es[0]) {
          OrderedAfterWrite(o.state, es[1..], all);
        } else {
          OrderedWithoutStray(o.state, es[1..], all);
        }
      }
    }
  }

  // With a stray Data-Out.

  /** An execution on behalf of transfer 0. */
  predicate Unordered(log: seq<Execution>)
  {
    exists i :: 0 <= i < |log| && log[i].transfer == Some(0)
  }

  lemma StepKeepsLog(st: State, e: Event, t: State)
    requires Sound(st) && StepOk(st, e) && t == Step(st, e.request, e.reply).state
    ensures st.target.log <= t.target.log
  {
    StepOrders(st, e, t);
  }

  lemma {:induction false} RunKeepsLog(st: State, es: seq<Event>)
    requires Sound(st) && Admissible(st, es)
    ensures st.target.log <= Run(st, es).target.log
    decreases |es|
  {
    if es != [] {
      var o := Step(st, es[0].request, es[0].reply);
      StepKeepsLog(st, es[0], o.state);
      StepKeepsSound(st, es[0]);
      if !o.terminate {
        RunKeepsLog(o.state, es[1..]);
      }
    }
  }

  lemma UnorderedStays(a: seq<Execution>, b: seq<Execution>)
    requires Unordered(a) && a <= b
    ensures Unordered(b)
  {
    var i :| 0 <= i < |a| && a[i].transfer == Some(0);
    assert b[i] == a[i];
  }

  /** The stray Data-Out runs sixteen bytes nobody sent, on the device buffer as it is. */
  lemma StrayRuns(st: State, e: Event, t: State)
    requires Sound(st) && StepOk(st, e) && Untouched(st) && Stray(st, e) && t == Step(st, e.request, e.reply).state
    ensures t.target.log == st.target.log + [Execution(st.session.entry.cdb, st.target.buffer, Some(0))]
  {
    GateFrame(st, e.request);
    NothingPatched(st.target.buffer, st.session.entry.data);
  }

  lemma NothingPatched(b: seq<byte>, data: seq<byte>)
    ensures Patch(b, 0, data[..0]) == b
  {
  }

  lemma {:induction false} StrayIsUnordered(st: State, es: seq<Event>)
    requires Sound(st) && Admissible(st, es) && Untouched(st) && StrayInRun(st, es)
    ensures Unordered(Run(st, es).target.log)
    decreases |es|
  {
    var o := Step(st, es[0].request, es[0].reply);
    StepKeepsSound(st, es[0]);
    if Stray(st, es[0]) {
      StrayRuns(st, es[0], o.state);
      StaysLoggedIn(st, es[0]);
      assert o.state.target.log[|st.target.log|].transfer == Some(0);
      RunKeepsLog(o.state, es[1..]);
      UnorderedStays(o.state.target.log, Run(o.state, es[1..]).target.log);
    } else {
      StepOrders(st, es[0], o.state);
      StrayIsUnordered(o.state, es[1..]);
    }
  }

  /** No command of the run has transfer 0. */
  lemma {:induction false} NoOrderIsZero(st: State, es: seq<Event>, n: nat)
    requires Sound(st) && Admissible(st, es) && TagsInOrder(st, n) && n + CommandCount(es) + 1 < TWO31
    ensures forall x :: x in Orders(st, es) ==> x.transfer != Some(0)
    decreases |es|
  {
    if es != [] {
      var o := Step(st, es[0].request, es[0].reply);
      AdvanceOne(st.session.transferTag);
      StepKeepsTags(st, es[0], n, o);
      StepKeepsSound(st, es[0]);
      if !o.terminate {
        NoOrderIsZero(o.state, es[1..], if IsCommand(es[0]) then n + 1 else n);
      }
    }
  }

  /**
   * Over every run of a fresh process with fewer than 2^31 - 1 commands: each execution has the CDB, and the transfer,
   * of a SCSI command of the run exactly when no Data-Out with tag 0, offset 0 and no data is served before the first
   * write with R2Ts.
   */
  lemma ExecutionsAreOrderedIff(params: Params, text: seq<byte>, es: seq<Event>)
    requires Admissible(Init(params, text), es) && CommandCount(es) + 1 < TWO31
    ensures AllOrdered(Run(Init(params, text), es).target.log, Orders(Init(params, text), es))
            <==> !StrayInRun(Init(params, text), es)
  {
    var st := Init(params, text);
    InitSound(params, text);
    NoOrderIsZero(st, es, 0);
    if StrayInRun(st, es) {
      StrayIsUnordered(st, es);
      UnorderedIsNot(Run(st, es).target.log, Orders(st, es));
    } else {
      OrderedWithoutStray(st, es, []);
      assert [] + Orders(st, es) == Orders(st, es);
    }
  }

  lemma UnorderedIsNot(log: seq<Execution>, orders: seq<Order>)
    requires Unordered(log) && forall x :: x in orders ==> x.transfer != Some(0)
    ensures !AllOrdered(log, orders)
  {
    var i :| 0 <= i < |log| && log[i].transfer == Some(0);
    assert OrderOf(log[i]) !in orders;
  }
}
