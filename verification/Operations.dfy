/** What contracts ask of a session, what that means on plain tables, and when a session gives just that. */
module Operations {
  import opened Rows
  import opened EntityCaches
  import opened Views
  import opened EntityTrackers

  datatype Op =
    | Create(key: Key, entity: Row)
    | Load(key: Key)
    | Update(key: Key, modifier: Values)
    | Increase(key: Key, amounts: map<string, Value>)
    | Delete(key: Key)
    | Lock(name: string)

  // What stays the same during a block. `join` is what the `+` of JavaScript makes of values that are neither two
  // decimal strings nor two numbers.
  datatype World = World(schemas: Schemas, tables: Tables, join: (Value, Value) -> Value)

  /******* On plain tables *******/

  /** The sum `increase` writes. */
  function Plus(join: (Value, Value) -> Value, amount: Value, present: Option<Value>): Value {
    match (amount, present)
    case (Dec(a), Some(Dec(b))) => Dec(a + b)
    case (Num(a), Some(Num(b))) => Num(a + b)
    case (_, None) => amount
    case (_, Some(b)) => join(amount, b)
  }

  function Increased(join: (Value, Value) -> Value, r: Row, amounts: map<string, Value>): Values {
    map p | p in amounts :: Some(Plus(join, amounts[p], Read(r, p)))
  }

  predicate Known(s: Schemas, op: Op) {
    op.Lock? || op.key.model in s.models
  }

  /** The effect of an operation on the view; None is an error. */
  function Effect(w: World, view: Tables, op: Op): Option<Tables> {
    if !Known(w.schemas, op) then None
    else match op
      case Create(k, e) => if k in view then None else Some(Created(w.schemas, view, k, e))
      case Load(_) => Some(view)
      case Update(k, m) => if k in view then Some(Updated(w.schemas, view, k, m)) else None
      case Increase(k, a) => if k in view then Some(Updated(w.schemas, view, k, Increased(w.join, view[k], a)))
          else None
      case Delete(k) => if k in view then Some(view - {k}) else None
      case Lock(_) => Some(view)
  }

  function NamesOf(op: Op): set<string> {
    if op.Lock? then {op.name} else {}
  }

  // The names a contract locks.
  function LockNames(ops: seq<Op>): set<string> {
    if ops == [] then {} else LockNames(ops[..|ops| - 1]) + NamesOf(ops[|ops| - 1])
  }

  // Tables and held names, without a cache.
  datatype Plain = Plain(view: Tables, held: set<string>)

  /** An operation on plain tables; None is an error. */
  function PlainStep(w: World, p: Plain, op: Op): Option<Plain> {
    if op.Lock? && op.name in p.held then None
    else match Effect(w, p.view, op)
      case None => None
      case Some(v) => Some(Plain(v, p.held + NamesOf(op)))
  }

  /** A contract on plain tables: one error makes it fail. */
  function PlainRun(w: World, p: Plain, ops: seq<Op>): Option<Plain> {
    if ops == [] then Some(p)
    else match PlainRun(w, p, ops[..|ops| - 1])
      case None => None
      case Some(q) => PlainStep(w, q, ops[|ops| - 1])
  }

  /** Contracts on plain tables: those that fail leave no trace. Also says which go through. */
  function PlainBlock(w: World, p: Plain, contracts: seq<seq<Op>>): (Plain, seq<bool>) {
    if contracts == [] then (p, [])
    else
      var (q, done) := PlainBlock(w, p, contracts[..|contracts| - 1]);
      match PlainRun(w, q, contracts[|contracts| - 1])
      case None => (q, done + [false])
      case Some(r) => (r, done + [true])
  }

  function RowAt(view: Tables, key: Key): Option<Row> {
    if key in view then Some(view[key]) else None
  }

  // The columns of an entity give the same sums, so far as they are columns.
  lemma SameIncrease(w: World, view: Tables, key: Key, entity: Row, amounts: map<string, Value>)
    requires key.model in w.schemas.models && key in view && Columns(w.schemas.models[key.model], entity) == view[key]
    ensures Updated(w.schemas, view, key, Increased(w.join, entity, amounts))
            == Updated(w.schemas, view, key, Increased(w.join, view[key], amounts))
  {
    var m := w.schemas.models[key.model];
    assert forall p | p in m.columns :: Read(entity, p) == Read(view[key], p);
    assert RealChanges(m, view[key], Increased(w.join, entity, amounts))
           == RealChanges(m, view[key], Increased(w.join, view[key], amounts));
  }

  /******* Moments of a session *******/

  /** What a session shows at a moment of a block: its view, the cached keys, those capacity took, the held names. */
  datatype Moment = Moment(view: Tables, cached: set<Key>, disposed: set<Key>, held: set<string>)

  // Reading the key, from the cache or else from the tables, gives the view's answer.
  predicate CurrentAt(w: World, m: Moment, key: Key) {
    key in m.cached || RowAt(w.tables, key) == RowAt(m.view, key)
  }

  /** The operation reads a current key only and keeps the view consistent. */
  predicate SafeAt(w: World, m: Moment, op: Op) {
    Known(w.schemas, op) ==>
      match op
      case Create(k, e) => k in m.cached || (k !in m.view && Consistent(w.schemas, Created(w.schemas, m.view, k, e)))
      case Load(k) => CurrentAt(w, m, k)
      case Update(k, c) => CurrentAt(w, m, k)
          && (k in m.view ==> Consistent(w.schemas, Updated(w.schemas, m.view, k, c)))
      case Increase(k, a) =>
        && CurrentAt(w, m, k)
        && (k in m.view ==> Consistent(w.schemas, Updated(w.schemas, m.view, k, Increased(w.join, m.view[k], a))))
      case Delete(k) => CurrentAt(w, m, k)
      case Lock(_) => true
  }

  function PlainOf(m: Moment): Plain {
    Plain(m.view, m.held)
  }

  // The operation is an error: it has no effect, or its name is held.
  predicate RefusedAt(w: World, m: Moment, op: Op) {
    Effect(w, m.view, op).None? || (op.Lock? && op.name in m.held)
  }

  ghost predicate Same(m: Moment, m': Moment) {
    m'.cached == m.cached && m'.disposed == m.disposed
  }

  // What a successful operation leads to. Only the entity that capacity takes is left open.
  ghost predicate Stepped(w: World, m: Moment, op: Op, m': Moment) {
    && Known(w.schemas, op) && Effect(w, m.view, op) == Some(m'.view) && m'.held == m.held + NamesOf(op)
    && match op
       case Lock(_) => Same(m, m')
       case Create(k, _) => k !in m.cached && Enters(w.schemas, m.cached, m.disposed, k, m'.cached, m'.disposed)
       case Load(k) => if k in m.view then Loads(w.schemas, m.cached, m.disposed, k, m'.cached, m'.disposed)
           else Same(m, m')
       case Update(k, _) => Loads(w.schemas, m.cached, m.disposed, k, m'.cached, m'.disposed)
       case Increase(k, _) => Loads(w.schemas, m.cached, m.disposed, k, m'.cached, m'.disposed)
       case Delete(k) =>
         exists loaded: set<Key> ::
           Loads(w.schemas, m.cached, m.disposed, k, loaded, m'.disposed) && m'.cached == loaded - {k}
  }

  // A current key is missing from the view just when it is found neither in the cache nor in the tables.
  lemma MissingRow(w: World, m: Moment, key: Key, missing: bool)
    requires CurrentAt(w, m, key) && (key in m.cached ==> key in m.view)
    requires missing <==> key !in m.cached && key !in w.tables
    ensures missing <==> key !in m.view
  {
  }

  /** Operations that were all safe and none refused lead from one moment to another. */
  ghost predicate Runs(w: World, m: Moment, ops: seq<Op>, m': Moment) {
    if ops == [] then m' == m
    else
      var n := |ops| - 1;
      exists mid :: Runs(w, m, ops[..n], mid) && Succeeds(w, mid, ops[n], m')
  }

  ghost predicate Succeeds(w: World, m: Moment, op: Op, m': Moment) {
    SafeAt(w, m, op) && !RefusedAt(w, m, op) && Stepped(w, m, op, m')
  }

  // Operation k is the first that is refused, and all up to it are safe.
  ghost predicate FailsAt(w: World, m: Moment, ops: seq<Op>, k: nat, stop: Moment) {
    k < |ops| && Runs(w, m, ops[..k], stop) && SafeAt(w, stop, ops[k]) && RefusedAt(w, stop, ops[k])
  }

  // Operation k is the first that is not safe, and none before it is refused.
  ghost predicate LeavesAt(w: World, m: Moment, ops: seq<Op>, k: nat, stop: Moment) {
    k < |ops| && Runs(w, m, ops[..k], stop) && !SafeAt(w, stop, ops[k])
  }

  // Back at a moment: the same view and names, and every key cached then is cached or was taken by capacity.
  ghost predicate Restored(m: Moment, m': Moment) {
    m'.view == m.view && m'.held == m.held && Resident(m.cached, m.view, m'.cached, m'.disposed)
  }

  ghost predicate TakenBack(w: World, m: Moment, ops: seq<Op>, m': Moment) {
    Restored(m, m') && exists k: nat, stop :: FailsAt(w, m, ops, k, stop)
  }

  /** Contracts one after the other, each with its operations all successful, or refused and taken back. */
  ghost predicate BlockRuns(w: World, m: Moment, contracts: seq<seq<Op>>, done: seq<bool>, m': Moment)
    requires |contracts| == |done|
  {
    if contracts == [] then m' == m
    else
      var n := |contracts| - 1;
      exists mid :: BlockRuns(w, m, contracts[..n], done[..n], mid) && Ends(w, mid, contracts[n], done[n], m')
  }

  ghost predicate Ends(w: World, m: Moment, ops: seq<Op>, done: bool, m': Moment) {
    if done then Runs(w, m, ops, m') else TakenBack(w, m, ops, m')
  }

  // The contracts up to one ran, and that one leaves at an operation that is not safe.
  ghost predicate LeftBlock(w: World, m: Moment, contracts: seq<seq<Op>>, done: seq<bool>) {
    && |done| < |contracts|
    && exists mid, k: nat, stop ::
          BlockRuns(w, m, contracts[..|done|], done, mid) && LeavesAt(w, mid, contracts[|done|], k, stop)
  }

  /******* What runs are on plain tables *******/

  lemma OneMore(w: World, m: Moment, ops: seq<Op>, at: nat, mid: Moment, m': Moment)
    requires at < |ops| && Runs(w, m, ops[..at], mid) && Succeeds(w, mid, ops[at], m')
    ensures Runs(w, m, ops[..at + 1], m')
  {
    assert ops[..at + 1][..at] == ops[..at];
  }

  /** A run does on the view what its operations do on plain tables. */
  lemma {:induction false} RunsPlain(w: World, m: Moment, ops: seq<Op>, m': Moment)
    requires Runs(w, m, ops, m')
    ensures PlainRun(w, PlainOf(m), ops) == Some(PlainOf(m'))
  {
    if ops == [] {
    } else {
      var n := |ops| - 1;
      var mid :| Runs(w, m, ops[..n], mid) && Succeeds(w, mid, ops[n], m');
      RunsPlain(w, m, ops[..n], mid);
    }
  }

  /** A contract that is taken back fails on plain tables. */
  lemma FailsPlain(w: World, m: Moment, ops: seq<Op>, k: nat, stop: Moment)
    requires FailsAt(w, m, ops, k, stop)
    ensures PlainRun(w, PlainOf(m), ops) == None
  {
    RunsPlain(w, m, ops[..k], stop);
    assert ops[..k + 1][..k] == ops[..k];
    PlainFails(w, PlainOf(m), ops, k + 1);
  }

  lemma {:induction false} PlainFails(w: World, p: Plain, ops: seq<Op>, k: nat)
    requires k <= |ops| && PlainRun(w, p, ops[..k]) == None
    ensures PlainRun(w, p, ops) == None
  {
    if k == |ops| {
      assert ops[..k] == ops;
    } else {
      assert ops[..|ops| - 1][..k] == ops[..k];
      PlainFails(w, p, ops[..|ops| - 1], k);
    }
  }

  // A contract that goes through locks its names, which were free.
  lemma {:induction false} PlainNames(w: World, p: Plain, ops: seq<Op>)
    ensures var r := PlainRun(w, p, ops); r.Some? ==>
              r.value.held == p.held + LockNames(ops) && LockNames(ops) !! p.held
  {
    if ops == [] {
    } else {
      PlainNames(w, p, ops[..|ops| - 1]);
    }
  }

  lemma StepResident(w: World, keys: set<Key>, m: Moment, op: Op, m': Moment)
    requires Stepped(w, m, op, m') && Resident(keys, m.view, m.cached, m.disposed)
    ensures Resident(keys, m'.view, m'.cached, m'.disposed)
  {
  }

  lemma {:induction false} RunsResident(w: World, keys: set<Key>, m: Moment, ops: seq<Op>, m': Moment)
    requires Runs(w, m, ops, m') && Resident(keys, m.view, m.cached, m.disposed)
    ensures Resident(keys, m'.view, m'.cached, m'.disposed)
  {
    if ops == [] {
    } else {
      var n := |ops| - 1;
      var mid :| Runs(w, m, ops[..n], mid) && Succeeds(w, mid, ops[n], m');
      RunsResident(w, keys, m, ops[..n], mid);
      StepResident(w, keys, mid, ops[n], m');
    }
  }

  // The names of the contracts that went through.
  function Taken(contracts: seq<seq<Op>>, done: seq<bool>): set<string>
    requires |contracts| == |done|
  {
    if contracts == [] then {}
    else
      var n := |contracts| - 1;
      Taken(contracts[..n], done[..n]) + (if done[n] then LockNames(contracts[n]) else {})
  }

  lemma {:induction false} TakenHas(contracts: seq<seq<Op>>, done: seq<bool>, i: nat)
    requires |contracts| == |done| && i < |done| && done[i]
    ensures LockNames(contracts[i]) <= Taken(contracts, done)
  {
    var n := |contracts| - 1;
    if i == n {
    } else {
      TakenHas(contracts[..n], done[..n], i);
    }
  }

  /** Contracts that ran do what they do on plain tables, and the same of them went through. */
  lemma {:induction false} BlockPlain(w: World, m: Moment, contracts: seq<seq<Op>>, done: seq<bool>, m': Moment)
    requires |contracts| == |done| && BlockRuns(w, m, contracts, done, m')
    ensures PlainBlock(w, PlainOf(m), contracts) == (PlainOf(m'), done)
  {
    if contracts == [] {
      assert done == [];
    } else {
      var n := |contracts| - 1;
      var mid :| BlockRuns(w, m, contracts[..n], done[..n], mid) && Ends(w, mid, contracts[n], done[n], m');
      BlockPlain(w, m, contracts[..n], done[..n], mid);
      if done[n] {
        RunsPlain(w, mid, contracts[n], m');
      } else {
        var k: nat, stop :| FailsAt(w, mid, contracts[n], k, stop);
        FailsPlain(w, mid, contracts[n], k, stop);
      }
      assert done[..n] + [done[n]] == done;
    }
  }

  // Afterwards the names of all contracts that went through are held.
  lemma {:induction false} HeldAfter(w: World, p: Plain, contracts: seq<seq<Op>>)
    ensures var (q, done) := PlainBlock(w, p, contracts);
            |done| == |contracts| && q.held == p.held + Taken(contracts, done)
  {
    if contracts == [] {
    } else {
      var n := |contracts| - 1;
      var (q, some) := PlainBlock(w, p, contracts[..n]);
      var (_, done) := PlainBlock(w, p, contracts);
      HeldAfter(w, p, contracts[..n]);
      PlainNames(w, q, contracts[n]);
      assert done[..n] == some;
    }
  }

  /** No two contracts that go through lock the same name. */
  lemma {:induction false} NamesApart(w: World, p: Plain, contracts: seq<seq<Op>>, i: nat, j: nat)
    requires i < j < |contracts|
    ensures var done := PlainBlock(w, p, contracts).1;
            |done| == |contracts| && (done[i] && done[j] ==> LockNames(contracts[i]) !! LockNames(contracts[j]))
  {
    var n := |contracts| - 1;
    var (q, some) := PlainBlock(w, p, contracts[..n]);
    var done := PlainBlock(w, p, contracts).1;
    HeldAfter(w, p, contracts[..n]);
    assert done[..n] == some;
    if j < n {
      NamesApart(w, p, contracts[..n], i, j);
    } else if some[i] {
      PlainNames(w, q, contracts[n]);
      TakenHas(contracts[..n], some, i);
    }
  }

  lemma BlockSnoc(w: World, m: Moment, contracts: seq<seq<Op>>, done: seq<bool>, mid: Moment, one: bool, m': Moment)
    requires |done| < |contracts| && BlockRuns(w, m, contracts[..|done|], done, mid)
             && Ends(w, mid, contracts[|done|], one, m')
    ensures BlockRuns(w, m, contracts[..|done| + 1], done + [one], m')
  {
    var n := |done|;
    assert contracts[..n + 1][..n] == contracts[..n] && (done + [one])[..n] == done;
  }

  /******* One outcome *******/

  // No model's cache has a limit.
  predicate Unlimited(s: Schemas) {
    forall m | m in s.models :: !Bounded(s, m)
  }

  lemma OneStep(w: World, m: Moment, op: Op, a: Moment, b: Moment)
    requires Unlimited(w.schemas) && Stepped(w, m, op, a) && Stepped(w, m, op, b)
    ensures a == b
  {
    if !op.Lock? {
      assert forall gone, keys: set<Key> :: Trimmed(w.schemas, keys, op.key, gone) ==> gone == None;
    }
  }

  lemma {:induction false} OneRun(w: World, m: Moment, ops: seq<Op>, a: Moment, b: Moment)
    requires Unlimited(w.schemas) && Runs(w, m, ops, a) && Runs(w, m, ops, b)
    ensures a == b
  {
    if ops == [] {
    } else {
      var n := |ops| - 1;
      var x :| Runs(w, m, ops[..n], x) && Succeeds(w, x, ops[n], a);
      var y :| Runs(w, m, ops[..n], y) && Succeeds(w, y, ops[n], b);
      OneRun(w, m, ops[..n], x, y);
      OneStep(w, x, ops[n], a, b);
    }
  }

  // A longer run passes through every operation before its end.
  lemma {:induction false} RunsThrough(w: World, m: Moment, ops: seq<Op>, k: nat, m': Moment)
    requires k < |ops| && Runs(w, m, ops, m')
    ensures exists mid :: Runs(w, m, ops[..k], mid) && SafeAt(w, mid, ops[k]) && !RefusedAt(w, mid, ops[k])
  {
    var n := |ops| - 1;
    var mid :| Runs(w, m, ops[..n], mid) && Succeeds(w, mid, ops[n], m');
    if k == n {
    } else {
      RunsThrough(w, m, ops[..n], k, mid);
      assert ops[..n][..k] == ops[..k];
    }
  }

  // The operations up to `at` succeeded, and the next one, if there is one, does not.
  ghost predicate Stops(w: World, m: Moment, ops: seq<Op>, at: nat, stop: Moment) {
    at <= |ops| && Runs(w, m, ops[..at], stop)
        && (at < |ops| ==> !SafeAt(w, stop, ops[at]) || RefusedAt(w, stop, ops[at]))
  }

  /** Without cache limits contract and state alone decide how far a contract gets, and so whether it goes through. */
  lemma OneOutcome(w: World, m: Moment, ops: seq<Op>, j: nat, a: Moment, k: nat, b: Moment)
    requires Unlimited(w.schemas) && Stops(w, m, ops, j, a) && Stops(w, m, ops, k, b)
    ensures j == k && a == b
  {
    if j < k {
      PassedOver(w, m, ops, j, a, k, b);
    } else if k < j {
      PassedOver(w, m, ops, k, b, j, a);
    } else {
      OneRun(w, m, ops[..j], a, b);
    }
  }

  lemma PassedOver(w: World, m: Moment, ops: seq<Op>, j: nat, a: Moment, k: nat, b: Moment)
    requires Unlimited(w.schemas) && j < k <= |ops| && Runs(w, m, ops[..j], a) && Runs(w, m, ops[..k], b)
    ensures SafeAt(w, a, ops[j]) && !RefusedAt(w, a, ops[j])
  {
    RunsThrough(w, m, ops[..k], j, b);
    assert ops[..k][..j] == ops[..j];
    var mid :| Runs(w, m, ops[..j], mid) && SafeAt(w, mid, ops[j]) && !RefusedAt(w, mid, ops[j]);
    OneRun(w, m, ops[..j], a, mid);
  }
}
