/** Straight-line SSA programs, as the FX converter emits them, and their meaning under any
    interpretation of the operations.  Names are SSA names without the printing prefix '%'. */
module Ssa {
  import opened Options

  type Name = string

  /** Attribute values: only integers and lists matter to the splitter. */
  datatype Attr = IntAttr(i: int) | ListAttr(items: seq<Attr>) | OtherAttr(text: string)
  type Attrs = map<string, Attr>

  /** One operation with its single result. */
  datatype Op = Op(opName: string, operands: seq<Name>, result: Name, attrs: Attrs, outType: string)

  /** Weight operations name themselves as operand; they are looked up by attribute instead. */
  predicate IsWeight(op: Op) { op.opName == "weight" }

  function Uses(op: Op): seq<Name> { if IsWeight(op) then [] else op.operands }

  function Results(ops: seq<Op>): seq<Name> { seq(|ops|, i requires 0 <= i < |ops| => ops[i].result) }

  function Elems(s: seq<Name>): set<Name> { set x | x in s }

  type Env<V> = map<Name, V>
  type Sem<!V> = (string, Attrs, seq<V>) -> V

  predicate Ready(op: Op, known: set<Name>) { forall x | x in Uses(op) :: x in known }

  function Args<V>(names: seq<Name>, env: Env<V>): seq<V>
    requires forall x | x in names :: x in env
  {
    seq(|names|, i requires 0 <= i < |names| => env[names[i]])
  }

  function Value<V>(sem: Sem<V>, op: Op, env: Env<V>): V
    requires Ready(op, env.Keys)
  {
    sem(op.opName, op.attrs, Args(Uses(op), env))
  }

  /** Executes operations one after the other; `None` is the executor's KeyError on a missing operand. */
  function Run<V>(sem: Sem<V>, ops: seq<Op>, env: Env<V>): Option<Env<V>> {
    if ops == [] then Some(env)
    else if !Ready(ops[0], env.Keys) then None
    else Run(sem, ops[1..], env[ops[0].result := Value(sem, ops[0], env)])
  }

  /** Every operand is an initial name or an earlier result. */
  predicate DefinedBeforeUse(ops: seq<Op>, known: set<Name>) {
    ops == [] || (Ready(ops[0], known) && DefinedBeforeUse(ops[1..], known + {ops[0].result}))
  }

  /** Defined before use, and no name is ever bound twice. */
  predicate SsaForm(ops: seq<Op>, known: set<Name>) {
    ops == [] || (Ready(ops[0], known) && ops[0].result !in known && SsaForm(ops[1..], known + {ops[0].result}))
  }

  ghost predicate Below<V>(small: Env<V>, big: Env<V>) {
    forall x | x in small :: x in big && big[x] == small[x]
  }

  /** `env` satisfies the defining equation of every operation. */
  ghost predicate Solves<V(!new)>(sem: Sem<V>, ops: seq<Op>, env: Env<V>) {
    forall op | op in ops :: op.result in env && Ready(op, env.Keys) && env[op.result] == Value(sem, op, env)
  }

  lemma {:induction false} RunDefined<V>(sem: Sem<V>, ops: seq<Op>, env: Env<V>)
    ensures Run(sem, ops, env).Some? <==> DefinedBeforeUse(ops, env.Keys)
    decreases ops
  {
    if ops != [] && Ready(ops[0], env.Keys) {
      var next := env[ops[0].result := Value(sem, ops[0], env)];
      assert next.Keys == env.Keys + {ops[0].result};
      RunDefined(sem, ops[1..], next);
    }
  }

  lemma {:induction false} SsaFormDefined(ops: seq<Op>, known: set<Name>)
    requires SsaForm(ops, known)
    ensures DefinedBeforeUse(ops, known)
  {
    if ops != [] {
      SsaFormDefined(ops[1..], known + {ops[0].result});
    }
  }

  lemma ValueStable<V>(sem: Sem<V>, op: Op, env: Env<V>, big: Env<V>)
    requires Ready(op, env.Keys) && Below(env, big)
    ensures Ready(op, big.Keys) && Value(sem, op, big) == Value(sem, op, env)
  {
    assert Args(Uses(op), big) == Args(Uses(op), env);
  }

  /** Running an SSA program never fails, keeps its inputs, and ends in a solution of all its equations. */
  lemma {:induction false} RunSolves<V(!new)>(sem: Sem<V>, ops: seq<Op>, env: Env<V>)
    requires SsaForm(ops, env.Keys)
    ensures Run(sem, ops, env).Some?
    ensures var out := Run(sem, ops, env).value;
            Below(env, out) && Solves(sem, ops, out) && out.Keys == env.Keys + Elems(Results(ops))
    decreases ops
  {
    if ops == [] {
      assert Results(ops) == [];
    } else {
      var op := ops[0];
      var next := env[op.result := Value(sem, op, env)];
      assert next.Keys == env.Keys + {op.result};
      RunSolves(sem, ops[1..], next);
      var out := Run(sem, ops, env).value;
      assert Below(env, next);
      ValueStable(sem, op, env, out);
      SolvesMore(sem, ops, out);
    }
  }

  lemma SolvesMore<V(!new)>(sem: Sem<V>, ops: seq<Op>, out: Env<V>)
    requires ops != [] && Solves(sem, ops[1..], out)
    requires Ready(ops[0], out.Keys) && ops[0].result in out && out[ops[0].result] == Value(sem, ops[0], out)
    ensures Solves(sem, ops, out) && Elems(Results(ops)) == {ops[0].result} + Elems(Results(ops[1..]))
  {
    assert Results(ops) == [ops[0].result] + Results(ops[1..]);
    assert ops == [ops[0]] + ops[1..];
  }

  /** A run that starts inside a solution stays inside it: SSA values do not depend on where the run starts. */
  lemma {:induction false} RunStaysBelow<V(!new)>(sem: Sem<V>, ops: seq<Op>, env: Env<V>, big: Env<V>)
    requires Below(env, big) && Solves(sem, ops, big)
    requires DefinedBeforeUse(ops, env.Keys)
    ensures Run(sem, ops, env).Some?
    ensures var out := Run(sem, ops, env).value;
            Below(out, big) && out.Keys == env.Keys + Elems(Results(ops))
    decreases ops
  {
    if ops == [] {
      assert Results(ops) == [];
    } else {
      var op := ops[0];
      var next := env[op.result := Value(sem, op, env)];
      ValueStable(sem, op, env, big);
      assert op in ops;
      assert next.Keys == env.Keys + {op.result};
      assert Below(next, big);
      RunStaysBelow(sem, ops[1..], next, big);
      assert Results(ops) == [op.result] + Results(ops[1..]);
    }
  }

  lemma {:induction false} RunConcat<V>(sem: Sem<V>, a: seq<Op>, b: seq<Op>, env: Env<V>)
    ensures Run(sem, a + b, env) ==
            match Run(sem, a, env) case None => None case Some(mid) => Run(sem, b, mid)
    decreases a
  {
    if a == [] {
      assert a + b == b;
    } else {
      assert (a + b)[1..] == a[1..] + b && (a + b)[0] == a[0];
      if Ready(a[0], env.Keys) {
        RunConcat(sem, a[1..], b, env[a[0].result := Value(sem, a[0], env)]);
      }
    }
  }

  /** SSA form, read by index: results are distinct and operands come from `known` or from earlier results. */
  lemma {:induction false} SsaFormByIndex(ops: seq<Op>, known: set<Name>)
    requires SsaForm(ops, known)
    ensures forall i | 0 <= i < |ops| :: ops[i].result !in known
    ensures forall i, j | 0 <= i < j < |ops| :: ops[i].result != ops[j].result
    ensures forall i, x | 0 <= i < |ops| && x in Uses(ops[i]) ::
              x in known || exists j | 0 <= j < i :: ops[j].result == x
  {
    if ops != [] {
      var rest := ops[1..];
      SsaFormByIndex(rest, known + {ops[0].result});
      assert forall i | 1 <= i < |ops| :: ops[i] == rest[i - 1];
      forall i, x | 0 <= i < |ops| && x in Uses(ops[i])
        ensures x in known || exists j | 0 <= j < i :: ops[j].result == x
      {
        if i > 0 && x !in known && x != ops[0].result {
          assert x in Uses(rest[i - 1]);
          var j :| 0 <= j < i - 1 && rest[j].result == x;
          assert ops[j + 1].result == x;
        }
      }
    }
  }
}
