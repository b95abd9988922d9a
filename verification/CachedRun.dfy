/** The executor's run with cache intercepts: an intercepted operand is overwritten in the environment, so every
    later reader of that name sees what the cache returned. */
module CachedRun {
  import opened Options
  import opened Ssa

  /** One intercept of an operation: the slab and layer it goes to, and the operand it takes and replaces. */
  datatype Hook = Hook(slab: string, layer: nat, operand: nat)

  /** What the cache returns for an operand; `None` is an error. */
  type See<!V> = (string, nat, V) -> Option<V>

  ghost predicate InRange(count: nat, hooks: seq<Hook>) { forall h | h in hooks :: h.operand < count }

  ghost predicate HooksFit(ops: seq<Op>, hooks: seq<seq<Hook>>) {
    |hooks| == |ops| && forall i | 0 <= i < |ops| :: InRange(|Uses(ops[i])|, hooks[i])
  }

  // ── The executor's run, and the run that replaces operands only ──

  /** The environment after the intercepts of one operation, in order. */
  function Overwritten<V>(see: See<V>, names: seq<Name>, hooks: seq<Hook>, env: Env<V>): (r: Option<Env<V>>)
    requires (forall x | x in names :: x in env) && InRange(|names|, hooks)
    ensures r.Some? ==> r.value.Keys == env.Keys
    decreases |hooks|
  {
    if hooks == [] then Some(env)
    else
      assert hooks[0] in hooks;
      var x := names[hooks[0].operand];
      match see(hooks[0].slab, hooks[0].layer, env[x])
      case None => None
      case Some(v) => Overwritten(see, names, hooks[1..], env[x := v])
  }

  /** The arguments of one operation after its intercepts. */
  function Replaced<V>(see: See<V>, args: seq<V>, hooks: seq<Hook>): (r: Option<seq<V>>)
    requires InRange(|args|, hooks)
    ensures r.Some? ==> |r.value| == |args|
    decreases |hooks|
  {
    if hooks == [] then Some(args)
    else
      assert hooks[0] in hooks;
      var p := hooks[0].operand;
      match see(hooks[0].slab, hooks[0].layer, args[p])
      case None => None
      case Some(v) => Replaced(see, args[p := v], hooks[1..])
  }

  /** The executor's step: the environment after it, and the value the operation computed. */
  function CachedStep<V>(sem: Sem<V>, see: See<V>, op: Op, hooks: seq<Hook>, env: Env<V>): Option<(Env<V>, V)>
    requires InRange(|Uses(op)|, hooks)
  {
    if !Ready(op, env.Keys) then None
    else match Overwritten(see, Uses(op), hooks, env)
      case None => None
      case Some(seen) => Some((seen[op.result := Value(sem, op, seen)], Value(sem, op, seen)))
  }

  /** The intended step: only the operation itself sees the replaced operands. */
  function DirectStep<V>(sem: Sem<V>, see: See<V>, op: Op, hooks: seq<Hook>, env: Env<V>): Option<(Env<V>, V)>
    requires InRange(|Uses(op)|, hooks)
  {
    if !Ready(op, env.Keys) then None
    else match Replaced(see, Args(Uses(op), env), hooks)
      case None => None
      case Some(args) =>
        var v := sem(op.opName, op.attrs, args);
        Some((env[op.result := v], v))
  }

  /** The final environment and the values computed, in order. */
  function RunCached<V>(sem: Sem<V>, see: See<V>, ops: seq<Op>, hooks: seq<seq<Hook>>, env: Env<V>)
    : Option<(Env<V>, seq<V>)>
    requires HooksFit(ops, hooks)
    decreases ops
  {
    if ops == [] then Some((env, []))
    else match CachedStep(sem, see, ops[0], hooks[0], env)
      case None => None
      case Some((next, v)) =>
        match RunCached(sem, see, ops[1..], hooks[1..], next)
        case None => None
        case Some((last, vs)) => Some((last, [v] + vs))
  }

  function RunDirect<V>(sem: Sem<V>, see: See<V>, ops: seq<Op>, hooks: seq<seq<Hook>>, env: Env<V>)
    : Option<(Env<V>, seq<V>)>
    requires HooksFit(ops, hooks)
    decreases ops
  {
    if ops == [] then Some((env, []))
    else match DirectStep(sem, see, ops[0], hooks[0], env)
      case None => None
      case Some((next, v)) =>
        match RunDirect(sem, see, ops[1..], hooks[1..], next)
        case None => None
        case Some((last, vs)) => Some((last, [v] + vs))
  }

  // ── A cache that returns what it is given ──

  /** A prefill pass: nothing is replaced. */
  ghost predicate Transparent<V(!new)>(see: See<V>) {
    forall slab, layer, v :: see(slab, layer, v) == None || see(slab, layer, v) == Some(v)
  }

  lemma {:induction false} NothingOverwritten<V(!new)>(see: See<V>, names: seq<Name>, hooks: seq<Hook>, env: Env<V>)
    requires Transparent(see) && (forall x | x in names :: x in env) && InRange(|names|, hooks)
    ensures var r := Overwritten(see, names, hooks, env); r == None || r == Some(env)
    decreases |hooks|
  {
    if hooks != [] {
      var x := names[hooks[0].operand];
      assert env[x := env[x]] == env;
      NothingOverwritten(see, names, hooks[1..], env);
    }
  }

  /** With a transparent cache the executor computes the plain run, unless the cache fails. */
  lemma {:induction false} PrefillIsPlain<V(!new)>(sem: Sem<V>, see: See<V>, ops: seq<Op>, hooks: seq<seq<Hook>>,
                                                   env: Env<V>)
    requires HooksFit(ops, hooks) && Transparent(see)
    ensures RunCached(sem, see, ops, hooks, env).Some? ==>
              Run(sem, ops, env) == Some(RunCached(sem, see, ops, hooks, env).value.0)
    decreases ops
  {
    if ops != [] && Ready(ops[0], env.Keys) {
      NothingOverwritten(see, Uses(ops[0]), hooks[0], env);
      PrefillIsPlain(sem, see, ops[1..], hooks[1..], env[ops[0].result := Value(sem, ops[0], env)]);
    }
  }

  // ── When overwriting is replacing ──

  /** The name at operand `p` of operation `i` is read nowhere else from there on. */
  ghost predicate ReadHere(ops: seq<Op>, i: nat, p: nat)
    requires i < |ops|
  {
    p < |Uses(ops[i])| ==>
      && (forall q: nat | q < |Uses(ops[i])| && q != p :: Uses(ops[i])[q] != Uses(ops[i])[p])
      && forall j | i < j < |ops| :: Uses(ops[i])[p] !in Uses(ops[j])
  }

  /** No intercepted name is read again. */
  ghost predicate ReadOnce(ops: seq<Op>, hooks: seq<seq<Hook>>)
    requires |hooks| == |ops|
  {
    forall i, h | 0 <= i < |ops| && h in hooks[i] :: ReadHere(ops, i, h.operand)
  }

  /** Both runs fail, or both compute the same values. */
  ghost predicate SameValues<V>(a: Option<(Env<V>, seq<V>)>, b: Option<(Env<V>, seq<V>)>) {
    (a.Some? <==> b.Some?) && (a.Some? ==> a.value.1 == b.value.1)
  }

  ghost predicate AloneIn(names: seq<Name>, hooks: seq<Hook>)
    requires InRange(|names|, hooks)
  {
    forall h, q: nat | h in hooks && q < |names| && q != h.operand :: names[q] != names[h.operand]
  }

  ghost function HookNames(names: seq<Name>, hooks: seq<Hook>): set<Name>
    requires InRange(|names|, hooks)
  {
    set h | h in hooks :: names[h.operand]
  }

  lemma ArgsUpdate<V>(names: seq<Name>, env: Env<V>, p: nat, v: V)
    requires (forall x | x in names :: x in env) && p < |names|
    requires forall q: nat | q < |names| && q != p :: names[q] != names[p]
    ensures Args(names, env[names[p] := v]) == Args(names, env)[p := v]
  {
  }

  /** One operation sees the same either way, and only intercepted names change. */
  lemma {:induction false} SeesTheSame<V>(see: See<V>, names: seq<Name>, hooks: seq<Hook>, c: Env<V>, args: seq<V>)
    requires (forall x | x in names :: x in c) && args == Args(names, c) && InRange(|names|, hooks)
    requires AloneIn(names, hooks)
    ensures var o, r := Overwritten(see, names, hooks, c), Replaced(see, args, hooks);
            && (o.Some? <==> r.Some?) && (o.Some? ==> Args(names, o.value) == r.value)
            && (o.Some? ==> forall x | x in c && x !in HookNames(names, hooks) :: o.value[x] == c[x])
    decreases |hooks|
  {
    if hooks != [] {
      var h, x := hooks[0], names[hooks[0].operand];
      assert h in hooks && hooks == [h] + hooks[1..];
      match see(h.slab, h.layer, c[x])
      case None =>
      case Some(v) =>
        ArgsUpdate(names, c, h.operand, v);
        SeesTheSame(see, names, hooks[1..], c[x := v], args[h.operand := v]);
    }
  }

  ghost predicate Unread(ops: seq<Op>, stale: set<Name>) {
    forall j, x | 0 <= j < |ops| && x in stale :: x !in Uses(ops[j])
  }

  ghost predicate AgreeOutside<V>(c: Env<V>, d: Env<V>, stale: set<Name>) {
    c.Keys == d.Keys && forall x | x in c && x !in stale :: c[x] == d[x]
  }

  lemma StepAgrees<V>(sem: Sem<V>, see: See<V>, op: Op, hooks: seq<Hook>, c: Env<V>, d: Env<V>, stale: set<Name>)
    requires InRange(|Uses(op)|, hooks) && AloneIn(Uses(op), hooks)
    requires AgreeOutside(c, d, stale) && forall x | x in stale :: x !in Uses(op)
    ensures var a, b := CachedStep(sem, see, op, hooks, c), DirectStep(sem, see, op, hooks, d);
            && (a.Some? <==> b.Some?)
            && (a.Some? ==> a.value.1 == b.value.1
                            && AgreeOutside(a.value.0, b.value.0, stale + HookNames(Uses(op), hooks)))
  {
    if Ready(op, c.Keys) {
      assert Args(Uses(op), c) == Args(Uses(op), d);
      SeesTheSame(see, Uses(op), hooks, c, Args(Uses(op), d));
    }
  }

  lemma TailReadOnce(ops: seq<Op>, hooks: seq<seq<Hook>>)
    requires ops != [] && HooksFit(ops, hooks) && ReadOnce(ops, hooks)
    ensures HooksFit(ops[1..], hooks[1..]) && ReadOnce(ops[1..], hooks[1..])
    ensures AloneIn(Uses(ops[0]), hooks[0]) && Unread(ops[1..], HookNames(Uses(ops[0]), hooks[0]))
  {
    forall i, h | 0 <= i < |ops[1..]| && h in hooks[1..][i] ensures ReadHere(ops[1..], i, h.operand) {
      assert ReadHere(ops, i + 1, h.operand);
      forall j | i < j < |ops[1..]| ensures ops[1..][j] == ops[j + 1] {
      }
    }
    forall h | h in hooks[0] ensures ReadHere(ops, 0, h.operand) {
    }
    forall j, x | 0 <= j < |ops[1..]| && x in HookNames(Uses(ops[0]), hooks[0]) ensures x !in Uses(ops[1..][j]) {
      var h :| h in hooks[0] && Uses(ops[0])[h.operand] == x;
      assert ReadHere(ops, 0, h.operand) && ops[1..][j] == ops[j + 1];
    }
  }

  lemma {:induction false} RunsAgree<V>(sem: Sem<V>, see: See<V>, ops: seq<Op>, hooks: seq<seq<Hook>>, c: Env<V>,
                                        d: Env<V>, stale: set<Name>)
    requires HooksFit(ops, hooks) && ReadOnce(ops, hooks) && AgreeOutside(c, d, stale) && Unread(ops, stale)
    ensures SameValues(RunCached(sem, see, ops, hooks, c), RunDirect(sem, see, ops, hooks, d))
    decreases ops
  {
    if ops != [] {
      TailReadOnce(ops, hooks);
      StepAgrees(sem, see, ops[0], hooks[0], c, d, stale);
      var a, b := CachedStep(sem, see, ops[0], hooks[0], c), DirectStep(sem, see, ops[0], hooks[0], d);
      if a.Some? {
        TailUnread(ops, stale, HookNames(Uses(ops[0]), hooks[0]));
        RunsAgree(sem, see, ops[1..], hooks[1..], a.value.0, b.value.0, stale + HookNames(Uses(ops[0]), hooks[0]));
      }
    }
  }

  lemma TailUnread(ops: seq<Op>, stale: set<Name>, more: set<Name>)
    requires ops != [] && Unread(ops, stale) && Unread(ops[1..], more)
    ensures Unread(ops[1..], stale + more)
  {
    forall j, x | 0 <= j < |ops[1..]| && x in stale + more ensures x !in Uses(ops[1..][j]) {
      assert ops[1..][j] == ops[j + 1];
    }
  }

  /** When no intercepted name is read again, every operation computes what it computes with only its own
      operands replaced. */
  lemma CachedIsDirect<V>(sem: Sem<V>, see: See<V>, ops: seq<Op>, hooks: seq<seq<Hook>>, env: Env<V>)
    requires HooksFit(ops, hooks) && ReadOnce(ops, hooks)
    ensures SameValues(RunCached(sem, see, ops, hooks, env), RunDirect(sem, see, ops, hooks, env))
  {
    RunsAgree(sem, see, ops, hooks, env, env, {});
  }

  // ── And only then ──

  function Total(s: seq<int>): int { if s == [] then 0 else Total(s[..|s| - 1]) + s[|s| - 1] }

  /** Every operation adds its arguments, and the cache adds 1. */
  const ADDING: Sem<int> := (opName, attrs, args) => Total(args)
  const BUMPED: See<int> := (slab, layer, v) => Some(v + 1)

  function Count(names: seq<Name>, x: Name): nat {
    if names == [] then 0 else Count(names[..|names| - 1], x) + if names[|names| - 1] == x then 1 else 0
  }

  lemma {:induction false} CountAt(names: seq<Name>, x: Name, p: nat, q: nat)
    requires p <= q < |names| && names[p] == x && names[q] == x
    ensures Count(names, x) >= if p < q then 2 else 1
  {
    var n := |names| - 1;
    if q < n {
      CountAt(names[..n], x, p, q);
    } else if p < q {
      CountAt(names[..n], x, p, p);
    }
  }

  lemma {:induction false} BumpTotal(names: seq<Name>, env: Env<int>, x: Name)
    requires x in env && forall y | y in names :: y in env
    ensures Total(Args(names, env[x := env[x] + 1])) == Total(Args(names, env)) + Count(names, x)
  {
    if names != [] {
      var n := |names| - 1;
      assert names[n] in names && forall y | y in names[..n] :: y in names;
      BumpTotal(names[..n], env, x);
      assert Args(names, env)[..n] == Args(names[..n], env);
      assert Args(names, env[x := env[x] + 1])[..n] == Args(names[..n], env[x := env[x] + 1]);
    }
  }

  lemma {:induction false} UpdateTotal(args: seq<int>, p: nat)
    requires p < |args|
    ensures Total(args[p := args[p] + 1]) == Total(args) + 1
  {
    var n := |args| - 1;
    var more := args[p := args[p] + 1];
    if p < n {
      UpdateTotal(args[..n], p);
      assert more[..n] == args[..n][p := args[..n][p] + 1];
    } else {
      assert more[..n] == args[..n];
    }
  }

  lemma {:induction false} ReplacedTotal(args: seq<int>, hooks: seq<Hook>)
    requires InRange(|args|, hooks)
    ensures Replaced(BUMPED, args, hooks).Some?
    ensures Total(Replaced(BUMPED, args, hooks).value) == Total(args) + |hooks|
    decreases |hooks|
  {
    if hooks != [] {
      var p := hooks[0].operand;
      UpdateTotal(args, p);
      ReplacedTotal(args[p := args[p] + 1], hooks[1..]);
    }
  }

  ghost predicate Above(c: Env<int>, d: Env<int>) { c.Keys == d.Keys && forall x | x in c :: c[x] >= d[x] }

  /** Some intercepted name stands at another place of the operation too. */
  ghost predicate Doubled(names: seq<Name>, hooks: seq<Hook>)
    requires InRange(|names|, hooks)
  {
    exists h, q: nat :: h in hooks && q < |names| && q != h.operand && names[q] == names[h.operand]
  }

  lemma {:induction false} OverwrittenRaises(names: seq<Name>, hooks: seq<Hook>, c: Env<int>)
    requires (forall x | x in names :: x in c) && InRange(|names|, hooks)
    ensures Overwritten(BUMPED, names, hooks, c).Some?
    ensures var o := Overwritten(BUMPED, names, hooks, c).value;
            Above(o, c) && forall h | h in hooks :: o[names[h.operand]] > c[names[h.operand]]
    decreases |hooks|
  {
    if hooks != [] {
      var x := names[hooks[0].operand];
      assert hooks == [hooks[0]] + hooks[1..];
      OverwrittenRaises(names, hooks[1..], c[x := c[x] + 1]);
    }
  }

  lemma {:induction false} OverwrittenTotal(names: seq<Name>, hooks: seq<Hook>, c: Env<int>)
    requires (forall x | x in names :: x in c) && InRange(|names|, hooks)
    ensures Overwritten(BUMPED, names, hooks, c).Some?
    ensures Total(Args(names, Overwritten(BUMPED, names, hooks, c).value))
            >= Total(Args(names, c)) + |hooks| + if Doubled(names, hooks) then 1 else 0
    decreases |hooks|
  {
    if hooks != [] {
      var p, x := hooks[0].operand, names[hooks[0].operand];
      OverwrittenTotal(names, hooks[1..], c[x := c[x] + 1]);
      BumpTotal(names, c, x);
      CountAt(names, x, p, p);
      DoubledFirst(names, hooks);
    }
  }

  lemma DoubledFirst(names: seq<Name>, hooks: seq<Hook>)
    requires hooks != [] && InRange(|names|, hooks)
    ensures Doubled(names, hooks) ==> Doubled(names, hooks[1..]) || Count(names, names[hooks[0].operand]) >= 2
  {
    if Doubled(names, hooks) {
      var h, q: nat :| h in hooks && q < |names| && q != h.operand && names[q] == names[h.operand];
      assert h == hooks[0] || h in hooks[1..];
      if h !in hooks[1..] {
        if q < h.operand {
          CountAt(names, names[q], q, h.operand);
        } else {
          CountAt(names, names[q], h.operand, q);
        }
      }
    }
  }

  lemma {:induction false} TotalAbove(names: seq<Name>, c: Env<int>, d: Env<int>)
    requires Above(c, d) && forall x | x in names :: x in c
    ensures Total(Args(names, c)) >= Total(Args(names, d)) + if exists x :: x in names && c[x] > d[x] then 1 else 0
  {
    if names != [] {
      var n := |names| - 1;
      assert names[n] in names && forall y | y in names[..n] :: y in names;
      assert names == names[..n] + [names[n]];
      TotalAbove(names[..n], c, d);
      assert Args(names, c)[..n] == Args(names[..n], c) && Args(names, d)[..n] == Args(names[..n], d);
    }
  }

  ghost predicate Strict(op: Op, hooks: seq<Hook>, c: Env<int>, d: Env<int>)
    requires InRange(|Uses(op)|, hooks) && c.Keys == d.Keys
  {
    Doubled(Uses(op), hooks) || exists x :: x in Uses(op) && x in c && c[x] > d[x]
  }

  /** The executor's value is never below the intended one, and above it where a bumped name is read again. */
  lemma StepAbove(op: Op, hooks: seq<Hook>, c: Env<int>, d: Env<int>)
    requires InRange(|Uses(op)|, hooks) && Above(c, d) && Ready(op, c.Keys)
    ensures var a, b := CachedStep(ADDING, BUMPED, op, hooks, c), DirectStep(ADDING, BUMPED, op, hooks, d);
            && a.Some? && b.Some? && a.value.1 >= b.value.1 && Above(a.value.0, b.value.0)
            && a.value.0.Keys == c.Keys + {op.result}
            && (Strict(op, hooks, c, d) ==> a.value.1 > b.value.1)
            && (forall x | x in c && x != op.result && c[x] > d[x] :: a.value.0[x] > b.value.0[x])
            && (forall h | h in hooks && Uses(op)[h.operand] != op.result ::
                  a.value.0[Uses(op)[h.operand]] > b.value.0[Uses(op)[h.operand]])
  {
    OverwrittenRaises(Uses(op), hooks, c);
    OverwrittenTotal(Uses(op), hooks, c);
    TotalAbove(Uses(op), c, d);
    ReplacedTotal(Args(Uses(op), d), hooks);
  }

  /** The two runs from `c` and from `d` differ at operation `j`. */
  ghost predicate DifferAt(ops: seq<Op>, hooks: seq<seq<Hook>>, c: Env<int>, d: Env<int>, j: nat)
    requires HooksFit(ops, hooks)
  {
    var a, b := RunCached(ADDING, BUMPED, ops, hooks, c), RunDirect(ADDING, BUMPED, ops, hooks, d);
    a.Some? && b.Some? && j < |a.value.1| && j < |b.value.1| && a.value.1[j] > b.value.1[j]
  }

  lemma {:induction false} BothRun(ops: seq<Op>, hooks: seq<seq<Hook>>, known: set<Name>, c: Env<int>, d: Env<int>)
    requires HooksFit(ops, hooks) && SsaForm(ops, known) && Above(c, d) && c.Keys == known
    ensures RunCached(ADDING, BUMPED, ops, hooks, c).Some? && RunDirect(ADDING, BUMPED, ops, hooks, d).Some?
    decreases ops
  {
    if ops != [] {
      StepAbove(ops[0], hooks[0], c, d);
      var a, b := CachedStep(ADDING, BUMPED, ops[0], hooks[0], c), DirectStep(ADDING, BUMPED, ops[0], hooks[0], d);
      BothRun(ops[1..], hooks[1..], known + {ops[0].result}, a.value.0, b.value.0);
    }
  }

  lemma DifferLater(ops: seq<Op>, hooks: seq<seq<Hook>>, c: Env<int>, d: Env<int>, c': Env<int>, d': Env<int>, j: nat)
    requires ops != [] && HooksFit(ops, hooks) && DifferAt(ops[1..], hooks[1..], c', d', j)
    requires var a, b := CachedStep(ADDING, BUMPED, ops[0], hooks[0], c),
             DirectStep(ADDING, BUMPED, ops[0], hooks[0], d);
             a.Some? && b.Some? && a.value.0 == c' && b.value.0 == d'
    ensures DifferAt(ops, hooks, c, d, j + 1)
  {
  }

  /** A name that is above makes the first operation that reads it differ. */
  lemma {:induction false} ReadAboveDiffers(ops: seq<Op>, hooks: seq<seq<Hook>>, known: set<Name>, c: Env<int>,
                                            d: Env<int>, x: Name, j: nat)
    requires HooksFit(ops, hooks) && SsaForm(ops, known) && Above(c, d) && c.Keys == known
    requires x in c && c[x] > d[x] && j < |ops| && x in Uses(ops[j])
    ensures DifferAt(ops, hooks, c, d, j)
    decreases ops
  {
    StepAbove(ops[0], hooks[0], c, d);
    var a, b := CachedStep(ADDING, BUMPED, ops[0], hooks[0], c), DirectStep(ADDING, BUMPED, ops[0], hooks[0], d);
    if j == 0 {
      assert Strict(ops[0], hooks[0], c, d);
      StrictDiffers(ops, hooks, known, c, d);
    } else {
      ReadAboveDiffers(ops[1..], hooks[1..], known + {ops[0].result}, a.value.0, b.value.0, x, j - 1);
      DifferLater(ops, hooks, c, d, a.value.0, b.value.0, j - 1);
    }
  }

  /** A name read again makes some operation differ. */
  lemma {:induction false} ReadAgainDiffers(ops: seq<Op>, hooks: seq<seq<Hook>>, known: set<Name>, c: Env<int>,
                                            d: Env<int>, i: nat, h: Hook)
    returns (j: nat)
    requires HooksFit(ops, hooks) && SsaForm(ops, known) && Above(c, d) && c.Keys == known
    requires i < |ops| && h in hooks[i] && !ReadHere(ops, i, h.operand)
    ensures DifferAt(ops, hooks, c, d, j)
    decreases ops
  {
    if i > 0 {
      StepAbove(ops[0], hooks[0], c, d);
      var a, b := CachedStep(ADDING, BUMPED, ops[0], hooks[0], c), DirectStep(ADDING, BUMPED, ops[0], hooks[0], d);
      LaterReadAgain(ops, i, h.operand);
      j := ReadAgainDiffers(ops[1..], hooks[1..], known + {ops[0].result}, a.value.0, b.value.0, i - 1, h);
      DifferLater(ops, hooks, c, d, a.value.0, b.value.0, j);
      j := j + 1;
    } else {
      j := FirstReadAgain(ops, hooks, known, c, d, h);
    }
  }

  lemma FirstReadAgain(ops: seq<Op>, hooks: seq<seq<Hook>>, known: set<Name>, c: Env<int>, d: Env<int>, h: Hook)
    returns (j: nat)
    requires HooksFit(ops, hooks) && SsaForm(ops, known) && Above(c, d) && c.Keys == known
    requires ops != [] && h in hooks[0] && !ReadHere(ops, 0, h.operand)
    ensures DifferAt(ops, hooks, c, d, j)
  {
    if Doubled(Uses(ops[0]), hooks[0]) {
      j := 0;
      StrictDiffers(ops, hooks, known, c, d);
    } else {
      var x := Uses(ops[0])[h.operand];
      j :| 0 < j < |ops| && x in Uses(ops[j]);
      HookedReadDiffers(ops, hooks, known, c, d, h, j);
    }
  }

  lemma StrictDiffers(ops: seq<Op>, hooks: seq<seq<Hook>>, known: set<Name>, c: Env<int>, d: Env<int>)
    requires HooksFit(ops, hooks) && SsaForm(ops, known) && Above(c, d) && c.Keys == known
    requires ops != [] && Strict(ops[0], hooks[0], c, d)
    ensures DifferAt(ops, hooks, c, d, 0)
  {
    StepAbove(ops[0], hooks[0], c, d);
    var a, b := CachedStep(ADDING, BUMPED, ops[0], hooks[0], c), DirectStep(ADDING, BUMPED, ops[0], hooks[0], d);
    BothRun(ops[1..], hooks[1..], known + {ops[0].result}, a.value.0, b.value.0);
  }

  /** After the first step of both runs the environments are `c'` and `d'`, and `c'` is above. */
  ghost predicate Stepped(ops: seq<Op>, hooks: seq<seq<Hook>>, known: set<Name>, c: Env<int>, d: Env<int>,
                          c': Env<int>, d': Env<int>)
    requires ops != [] && HooksFit(ops, hooks)
  {
    var a, b := CachedStep(ADDING, BUMPED, ops[0], hooks[0], c), DirectStep(ADDING, BUMPED, ops[0], hooks[0], d);
    && a.Some? && b.Some? && a.value.0 == c' && b.value.0 == d'
    && Above(c', d') && c'.Keys == known + {ops[0].result}
    && SsaForm(ops[1..], known + {ops[0].result}) && HooksFit(ops[1..], hooks[1..])
  }

  lemma FirstStep(ops: seq<Op>, hooks: seq<seq<Hook>>, known: set<Name>, c: Env<int>, d: Env<int>, h: Hook)
    returns (c': Env<int>, d': Env<int>)
    requires HooksFit(ops, hooks) && SsaForm(ops, known) && Above(c, d) && c.Keys == known
    requires ops != [] && h in hooks[0]
    ensures Stepped(ops, hooks, known, c, d, c', d')
    ensures var x := Uses(ops[0])[h.operand]; x in c' && c'[x] > d'[x]
  {
    StepAbove(ops[0], hooks[0], c, d);
    c' := CachedStep(ADDING, BUMPED, ops[0], hooks[0], c).value.0;
    d' := DirectStep(ADDING, BUMPED, ops[0], hooks[0], d).value.0;
    assert Uses(ops[0])[h.operand] in Uses(ops[0]);
  }

  lemma HookedReadDiffers(ops: seq<Op>, hooks: seq<seq<Hook>>, known: set<Name>, c: Env<int>, d: Env<int>, h: Hook,
                          j: nat)
    requires HooksFit(ops, hooks) && SsaForm(ops, known) && Above(c, d) && c.Keys == known
    requires 0 < j < |ops| && h in hooks[0] && Uses(ops[0])[h.operand] in Uses(ops[j])
    ensures DifferAt(ops, hooks, c, d, j)
  {
    var c', d' := FirstStep(ops, hooks, known, c, d, h);
    SteppedDiffers(ops, hooks, known, c, d, c', d', Uses(ops[0])[h.operand], j - 1);
  }

  lemma SteppedDiffers(ops: seq<Op>, hooks: seq<seq<Hook>>, known: set<Name>, c: Env<int>, d: Env<int>, c': Env<int>,
                       d': Env<int>, x: Name, j: nat)
    requires ops != [] && HooksFit(ops, hooks) && Stepped(ops, hooks, known, c, d, c', d')
    requires x in c' && c'[x] > d'[x] && j + 1 < |ops| && x in Uses(ops[j + 1])
    ensures DifferAt(ops, hooks, c, d, j + 1)
  {
    RestDiffers(ops[1..], hooks[1..], known + {ops[0].result}, c', d', x, j, ops[j + 1]);
    DifferLater(ops, hooks, c, d, c', d', j);
  }

  lemma RestDiffers(rest: seq<Op>, hooks: seq<seq<Hook>>, known: set<Name>, c: Env<int>, d: Env<int>, x: Name, j: nat,
                    op: Op)
    requires HooksFit(rest, hooks) && SsaForm(rest, known) && Above(c, d) && c.Keys == known
    requires x in c && c[x] > d[x] && j < |rest| && rest[j] == op && x in Uses(op)
    ensures DifferAt(rest, hooks, c, d, j)
  {
    ReadAboveDiffers(rest, hooks, known, c, d, x, j);
  }

  lemma LaterReadAgain(ops: seq<Op>, i: nat, p: nat)
    requires 0 < i < |ops| && !ReadHere(ops, i, p)
    ensures !ReadHere(ops[1..], i - 1, p)
  {
    if forall q: nat | q < |Uses(ops[i])| && q != p :: Uses(ops[i])[q] != Uses(ops[i])[p] {
      var j :| i < j < |ops| && Uses(ops[i])[p] in Uses(ops[j]);
      assert ops[1..][j - 1] == ops[j];
    }
  }

  ghost predicate AgreeFor(sem: Sem<int>, see: See<int>, ops: seq<Op>, hooks: seq<seq<Hook>>, env: Env<int>)
    requires HooksFit(ops, hooks)
  {
    SameValues(RunCached(sem, see, ops, hooks, env), RunDirect(sem, see, ops, hooks, env))
  }

  /** Overwriting operands in the environment is replacing them, for every meaning of the operations, every cache
      and every input, exactly when no intercepted name is read again. */
  lemma CachedIsDirectIff(ops: seq<Op>, hooks: seq<seq<Hook>>, known: set<Name>)
    requires HooksFit(ops, hooks) && SsaForm(ops, known)
    ensures (forall sem: Sem<int>, see: See<int>, env: Env<int> | env.Keys == known ::
               AgreeFor(sem, see, ops, hooks, env))
            <==> ReadOnce(ops, hooks)
  {
    if ReadOnce(ops, hooks) {
      forall sem: Sem<int>, see: See<int>, env: Env<int> | env.Keys == known
        ensures AgreeFor(sem, see, ops, hooks, env)
      {
        CachedIsDirect(sem, see, ops, hooks, env);
      }
    } else {
      var i: nat, h :| i < |ops| && h in hooks[i] && !ReadHere(ops, i, h.operand);
      var zeros: Env<int> := map x | x in known :: 0;
      var j := ReadAgainDiffers(ops, hooks, known, zeros, zeros, i, h);
      assert zeros.Keys == known && !AgreeFor(ADDING, BUMPED, ops, hooks, zeros);
    }
  }
}
