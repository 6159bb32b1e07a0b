/** What the emitted builder does when a program uses it
    (builder/src/lib.rs, lines 73-151): `builder()` creates a store with one
    slot per field, each setter overwrites its own slot, and `build` turns the
    store into the finished struct or names the first required field that was
    never set. Field values are abstract: `V` stands for any value a field can
    hold. */
module GeneratedBuilder {
  import opened Wrappers
  import opened Classify
  import opened Expansion

  /** What one storage field holds: an `Option<T>` or a `Vec<T>`. */
  datatype Slot<V> = Single(opt: Option<V>) | Many(items: seq<V>)

  /** A setter's argument: one value, or a whole vector for a `Vec` field. */
  datatype Arg<V> = One(v: V) | List(items: seq<V>)

  /** A field of the finished struct: the unwrapped value of a required field,
      or the copied `Option` or `Vec` of the others. */
  datatype FieldValue<V> = Plain(v: V) | Optional(opt: Option<V>) | Repeated(items: seq<V>)

  function InitialSlot<V>(init: InitialValue): Slot<V> {
    match init
    case EmptyVec => Many([])
    case NoneValue => Single(None)
  }

  function InitialStore<V>(initial: seq<InitialValue>): seq<Slot<V>> {
    seq(|initial|, i requires 0 <= i < |initial| => InitialSlot(initial[i]))
  }

  /** Whether a setter with this body accepts the argument (the emitted
      parameter type makes the compiler refuse anything else). */
  predicate Accepts<V>(assign: Assignment, arg: Arg<V>) {
    match assign
    case Replace => arg.List?
    case WrapSome => arg.One?
  }

  function Assign<V>(assign: Assignment, arg: Arg<V>): Slot<V>
    requires Accepts(assign, arg)
  {
    match assign
    case Replace => Many(arg.items)
    case WrapSome => Single(Some(arg.v))
  }

  /** The store holds a `Vec` exactly where the declaration starts from `vec![]`. */
  ghost predicate Kinded<V>(d: BuilderDecl, store: seq<Slot<V>>) {
    |store| == |d.initial| &&
    forall i :: 0 <= i < |store| ==> (store[i].Many? <==> d.initial[i] == EmptyVec)
  }

  /** Every required field is read from an `Option` slot. */
  ghost predicate Fits<V>(args: seq<BuildArg>, store: seq<Slot<V>>) {
    |args| == |store| &&
    forall i :: 0 <= i < |args| ==> (args[i].RequireField? ==> store[i].Single?)
  }

  function Copy<V>(slot: Slot<V>): FieldValue<V> {
    match slot
    case Single(opt) => Optional(opt)
    case Many(items) => Repeated(items)
  }

  /** One field initialiser of `build`: it fails exactly when the field is
      required and its slot holds `None`, with that field's message; a
      required field otherwise gets the value inside its slot, and any other
      field a copy of its slot. */
  function ArgValue<V>(arg: BuildArg, slot: Slot<V>): (r: Result<FieldValue<V>, string>)
    requires arg.RequireField? ==> slot.Single?
    ensures r.Failure? <==> arg.RequireField? && slot.opt.None?
    ensures r.Failure? ==> r.error == arg.message
    ensures r.Success? && arg.RequireField? ==> r.value.Plain? && slot.opt == Some(r.value.v)
    ensures arg.CloneField? ==> r == Success(Copy(slot))
  {
    match arg
    case CloneField(_) => Success(Copy(slot))
    case RequireField(_, message) =>
      match slot.opt
      case Some(v) => Success(Plain(v))
      case None => Failure(message)
  }

  /** The struct literal of `build`, its field initialisers evaluated in
      order; `?` returns the first failure. */
  function Evaluate<V>(args: seq<BuildArg>, store: seq<Slot<V>>): (r: Result<seq<FieldValue<V>>, string>)
    requires Fits(args, store)
    ensures r.Success? ==> |r.value| == |args|
    ensures r.Failure? ==> exists k :: 0 <= k < |args| && args[k].RequireField? && r.error == args[k].message
    decreases |args|
  {
    if |args| == 0 then Success([])
    else
      var v :- ArgValue(args[0], store[0]);
      var rest :- Evaluate(args[1..], store[1..]);
      Success([v] + rest)
  }

  /** A required field that still holds `None`. */
  ghost predicate Missing<V>(args: seq<BuildArg>, store: seq<Slot<V>>, k: int)
    requires Fits(args, store)
  {
    0 <= k < |args| && args[k].RequireField? && store[k].opt.None?
  }

  /** `build` succeeds exactly when no required field is missing. */
  lemma {:induction false} EvaluateSucceedsIff<V>(args: seq<BuildArg>, store: seq<Slot<V>>)
    requires Fits(args, store)
    ensures Evaluate(args, store).Success? <==> forall k :: 0 <= k < |args| ==> !Missing(args, store, k)
  {
    if |args| > 0 {
      EvaluateSucceedsIff(args[1..], store[1..]);
      assert forall k :: 1 <= k < |args| ==> (Missing(args, store, k) <==> Missing(args[1..], store[1..], k - 1));
      if ArgValue(args[0], store[0]).Failure? {
        assert Missing(args, store, 0);
      } else if Evaluate(args[1..], store[1..]).Failure? {
        var k :| 0 <= k < |args| - 1 && Missing(args[1..], store[1..], k);
        assert Missing(args, store, k + 1);
      } else {
        assert !Missing(args, store, 0);
      }
    }
  }

  /** On success every required field gets its unwrapped value and every
      other field a copy of its slot, in declaration order. */
  lemma {:induction false} EvaluateValues<V>(args: seq<BuildArg>, store: seq<Slot<V>>)
    requires Fits(args, store)
    requires Evaluate(args, store).Success?
    ensures var vs := Evaluate(args, store).value;
            |vs| == |args| &&
            forall k :: 0 <= k < |args| ==>
              if args[k].RequireField? then store[k].opt.Some? && vs[k] == Plain(store[k].opt.value)
              else vs[k] == Copy(store[k])
  {
    if |args| > 0 {
      EvaluateValues(args[1..], store[1..]);
    }
  }

  /** On failure the error is the message of the first missing required field. */
  lemma {:induction false} EvaluateFailsOnFirstMissing<V>(args: seq<BuildArg>, store: seq<Slot<V>>)
    requires Fits(args, store)
    requires Evaluate(args, store).Failure?
    ensures exists k :: Missing(args, store, k) && Evaluate(args, store).error == args[k].message &&
                        forall j :: 0 <= j < k ==> !Missing(args, store, j)
  {
    if ArgValue(args[0], store[0]).Failure? {
      assert Missing(args, store, 0);
    } else {
      EvaluateFailsOnFirstMissing(args[1..], store[1..]);
      var k :| Missing(args[1..], store[1..], k) && Evaluate(args[1..], store[1..]).error == args[1..][k].message &&
               forall j :: 0 <= j < k ==> !Missing(args[1..], store[1..], j);
      assert Missing(args, store, k + 1);
      forall j | 0 <= j < k + 1
        ensures !Missing(args, store, j)
      {
        if j > 0 {
          assert !Missing(args[1..], store[1..], j - 1);
        }
      }
    }
  }

  /** For a derived builder, `builder()` leaves every `Vec` field empty and
      every other field `None`. */
  lemma DerivedInitialStore<V>(input: DeriveInput)
    requires Derive(input).Success?
    ensures var d := Derive(input).value;
            var fields := input.data.fields.named;
            var store: seq<Slot<V>> := InitialStore(d.initial);
            && input.data.Struct? && input.data.fields.Named?
            && Kinded(d, store)
            && |store| == |fields|
            && forall i :: 0 <= i < |fields| ==>
                 store[i] == (if IsVecField(fields[i]) then Many([]) else Single(None))
  {
    DeriveShape(input);
  }

  /** The setter of a derived `Vec` field takes a whole vector and the slot
      becomes exactly that vector, whatever it held before (it replaces, it
      does not append); the setter of any other field takes one value and the
      slot becomes `Some` of it. */
  lemma DerivedSetterEffect<V>(input: DeriveInput, i: nat, arg: Arg<V>)
    requires Derive(input).Success?
    requires i < |Derive(input).value.setters|
    requires Accepts(Derive(input).value.setters[i].assign, arg)
    ensures var d := Derive(input).value;
            var fields := input.data.fields.named;
            && input.data.Struct? && input.data.fields.Named?
            && i < |fields|
            && (IsVecField(fields[i]) ==> arg.List? && Assign(d.setters[i].assign, arg) == Many(arg.items))
            && (!IsVecField(fields[i]) ==> arg.One? && Assign(d.setters[i].assign, arg) == Single(Some(arg.v)))
  {
    DeriveShape(input);
  }

  /** `build` of a derived builder, stated over the struct's own fields: it
      succeeds exactly when every field that is neither `Option` nor `Vec`
      holds `Some`; it then gives those fields their unwrapped values and the
      others their stored values unchanged; otherwise its error is
      "<name> is required" for the first such field, in declaration order,
      that holds `None`. */
  lemma DerivedBuildOutcome<V>(input: DeriveInput, store: seq<Slot<V>>)
    requires Derive(input).Success?
    requires Kinded(Derive(input).value, store)
    ensures var d := Derive(input).value;
            var fields := input.data.fields.named;
            && input.data.Struct? && input.data.fields.Named?
            && |store| == |fields|
            && (forall i :: 0 <= i < |fields| ==> (IsVecField(fields[i]) <==> store[i].Many?))
            && Fits(d.args, store)
            && (Evaluate(d.args, store).Success? <==>
                  forall i :: 0 <= i < |fields| && !IsOptionOrVec(fields[i]) ==> store[i].opt.Some?)
            && (Evaluate(d.args, store).Success? ==>
                  var vs := Evaluate(d.args, store).value;
                  |vs| == |fields| &&
                  forall i :: 0 <= i < |fields| ==>
                    if IsOptionOrVec(fields[i]) then vs[i] == Copy(store[i])
                    else store[i].opt.Some? && vs[i] == Plain(store[i].opt.value))
            && (Evaluate(d.args, store).Failure? ==>
                  exists k :: 0 <= k < |fields| && !IsOptionOrVec(fields[k]) && store[k].opt.None? &&
                              Evaluate(d.args, store).error == fields[k].name + " is required" &&
                              forall j :: 0 <= j < k ==> IsOptionOrVec(fields[j]) || store[j].opt.Some?)
  {
    DerivedCodeIsWellTyped(input);
    DeriveShape(input);
    var d := Derive(input).value;
    var fields := input.data.fields.named;
    assert Fits(d.args, store);
    forall k | 0 <= k < |fields|
      ensures Missing(d.args, store, k) <==> !IsOptionOrVec(fields[k]) && store[k].opt.None?
    {
    }
    EvaluateSucceedsIff(d.args, store);
    if Evaluate(d.args, store).Success? {
      EvaluateValues(d.args, store);
    } else {
      EvaluateFailsOnFirstMissing(d.args, store);
    }
  }

  /** The builder a derived struct's `builder()` returns. */
  class Builder<V> {
    const decl: BuilderDecl
    var store: seq<Slot<V>>

    ghost predicate Valid()
      reads this
    {
      WellFormed(decl) && Kinded(decl, store)
    }

    /** `builder()`: every `Vec` field empty, every other field `None`. */
    constructor (decl: BuilderDecl)
      requires WellFormed(decl)
      ensures Valid()
      ensures this.decl == decl
      ensures |store| == |decl.initial|
      ensures forall i :: 0 <= i < |store| ==>
                store[i] == (if decl.initial[i] == EmptyVec then Many([]) else Single(None))
    {
      this.decl := decl;
      store := InitialStore(decl.initial);
    }

    /** The setter of field `i`; it changes only that field and returns the
        builder itself, so that calls chain. */
    method Set(i: nat, arg: Arg<V>) returns (self: Builder<V>)
      requires Valid()
      requires i < |store| && Accepts(decl.setters[i].assign, arg)
      modifies this
      ensures Valid()
      ensures self == this
      ensures store == old(store)[i := Assign(decl.setters[i].assign, arg)]
    {
      store := store[i := Assign(decl.setters[i].assign, arg)];
      self := this;
    }

    /** `build`: reads the store without changing it. */
    method Build() returns (r: Result<seq<FieldValue<V>>, string>)
      requires Valid()
      ensures Fits(decl.args, store)
      ensures r == Evaluate(decl.args, store)
    {
      var args := decl.args;
      var values: seq<FieldValue<V>> := [];
      var i := 0;
      assert args[i..] == args && store[i..] == store;
      PrependNothing(Evaluate(args, store));
      while i < |args|
        invariant 0 <= i <= |args|
        invariant Fits(args[i..], store[i..])
        invariant Evaluate(args, store) == Prepend(values, Evaluate(args[i..], store[i..]))
      {
        var v := ArgValue(args[i], store[i]);
        if v.Failure? {
          return Failure(v.error);
        }
        assert args[i..][1..] == args[i + 1..] && store[i..][1..] == store[i + 1..];
        PrependStep(values, v.value, Evaluate(args[i + 1..], store[i + 1..]));
        values := values + [v.value];
        i := i + 1;
      }
      assert args[i..] == [] && store[i..] == [] && values + [] == values;
      return Success(values);
    }
  }

  function Prepend<V>(prefix: seq<FieldValue<V>>, r: Result<seq<FieldValue<V>>, string>): Result<seq<FieldValue<V>>, string> {
    match r
    case Success(vs) => Success(prefix + vs)
    case Failure(e) => Failure(e)
  }

  lemma PrependNothing<V>(r: Result<seq<FieldValue<V>>, string>)
    ensures Prepend([], r) == r
  {
    if r.Success? {
      assert [] + r.value == r.value;
    }
  }

  lemma PrependStep<V>(prefix: seq<FieldValue<V>>, v: FieldValue<V>, r: Result<seq<FieldValue<V>>, string>)
    ensures Prepend(prefix, Prepend([v], r)) == Prepend(prefix + [v], r)
  {
    if r.Success? {
      assert prefix + ([v] + r.value) == prefix + [v] + r.value;
    }
  }

  /** Because `build` only reads, calling it twice gives the same answer,
      whether that is the struct or the error. */
  method BuildIsRepeatable<V>(b: Builder<V>) returns (first: Result<seq<FieldValue<V>>, string>, second: Result<seq<FieldValue<V>>, string>)
    requires b.Valid()
    ensures first == second
  {
    first := b.Build();
    second := b.Build();
  }
}
