/** What `derive` emits (builder/src/lib.rs, lines 50-156), as a declaration
    rather than as tokens: the builder's name, its storage fields, the value
    each starts from in `builder()`, one setter per field, and the argument
    `build` evaluates for each field of the finished struct. */
module Expansion {
  import opened Wrappers
  import opened Classify

  /** `vec![]` or `None`. */
  datatype InitialValue = EmptyVec | NoneValue

  /** The setter body: `self.x = x` or `self.x = Some(x)`. */
  datatype Assignment = Replace | WrapSome

  /** `fn name(&mut self, name: param) -> &mut Self`. */
  datatype Setter = Setter(name: string, param: Type, assign: Assignment)

  /** `name: self.name.clone()` or
      `name: self.name.clone().ok_or(message)?`. */
  datatype BuildArg = CloneField(name: string) | RequireField(name: string, message: string)

  datatype BuilderDecl = BuilderDecl(
    target: string,
    name: string,
    storage: seq<Field>,
    initial: seq<InitialValue>,
    setters: seq<Setter>,
    args: seq<BuildArg>)

  /** A field the builder copies as it is rather than requiring it. */
  predicate IsOptionOrVec(f: Field) {
    IsOptionalField(f) || IsVecField(f)
  }

  function BuilderName(target: string): string {
    target + "Builder"
  }

  /** The builder's field for `f`: its own type when that is an `Option` or a
      `Vec`, `Option<type>` otherwise. */
  function StorageField(f: Field): (r: Field)
    ensures r.name == f.name
    ensures IsOptionalField(r) || IsVecField(r)
    ensures IsVecField(r) == IsVecField(f)
    ensures IsOptionOrVec(f) ==> r.ty == f.ty
    ensures !IsOptionOrVec(f) ==> GetInnerType(r.ty) == Some(f.ty)
  {
    if IsOptionOrVec(f) then f else Field(f.name, OptionOf(f.ty))
  }

  function WrappedFields(fields: seq<Field>): seq<Field> {
    seq(|fields|, i requires 0 <= i < |fields| => StorageField(fields[i]))
  }

  /** The value `builder()` gives the field's storage: `vec![]` for a `Vec`
      storage field and `None` for an `Option` one. */
  function InitialValueOf(f: Field): (r: InitialValue)
    ensures r == EmptyVec ==> IsVecField(StorageField(f))
    ensures r == NoneValue ==> IsOptionalField(StorageField(f))
  {
    if IsVecField(f) then EmptyVec else NoneValue
  }

  function EmptyFieldValues(fields: seq<Field>): seq<InitialValue> {
    seq(|fields|, i requires 0 <= i < |fields| => InitialValueOf(fields[i]))
  }

  /** The setter of one field; emitting it fails when the field is an
      `Option` without an inner type. A `Vec` field's setter replaces the
      storage with its parameter, which has the storage's type; every other
      setter stores `Some` of its parameter, which has the type inside the
      storage `Option`. */
  function SetterOf(f: Field): (r: Result<Setter, MacroError>)
    ensures r.Success? <==> !(IsOptionalField(f) && GetInnerType(f.ty).None?)
    ensures r.Failure? ==> r.error == NoInnerType(f.name)
    ensures r.Success? ==>
              && r.value.name == f.name
              && (r.value.assign == Replace <==> IsVecField(f))
              && (r.value.assign == Replace ==> r.value.param == StorageField(f).ty)
              && (r.value.assign == WrapSome ==> GetInnerType(StorageField(f).ty) == Some(r.value.param))
  {
    OptionalAndVecExclusive(f);
    OptionOfRoundTrip(f.name, f.ty);
    if IsVecField(f) then Success(Setter(f.name, f.ty, Replace))
    else if IsOptionalField(f) then
      match GetInnerType(f.ty)
      case Some(inner) => Success(Setter(f.name, inner, WrapSome))
      case None => Failure(NoInnerType(f.name))
    else Success(Setter(f.name, f.ty, WrapSome))
  }

  /** The setters, in declaration order; the first field whose setter cannot
      be emitted aborts the expansion. */
  function BuildMethods(fields: seq<Field>): (r: Result<seq<Setter>, MacroError>)
    ensures r.Success? <==> forall i :: 0 <= i < |fields| ==> SetterOf(fields[i]).Success?
    ensures r.Success? ==>
              |r.value| == |fields| &&
              forall i :: 0 <= i < |fields| ==> SetterOf(fields[i]) == Success(r.value[i])
    ensures r.Failure? ==>
              exists k :: 0 <= k < |fields| && SetterOf(fields[k]) == Failure(r.error) &&
                          forall j :: 0 <= j < k ==> SetterOf(fields[j]).Success?
  {
    if |fields| == 0 then Success([])
    else
      var setter :- SetterOf(fields[0]);
      var rest :- BuildMethods(fields[1..]);
      Success([setter] + rest)
  }

  function RequiredMessage(name: string): string {
    name + " is required"
  }

  /** The initialiser `build` uses for the field: a clone of the storage when
      that already has the field's type, otherwise the unwrapped storage, which
      is required and whose absence is reported as "<name> is required". */
  function BuildArgOf(f: Field): (r: BuildArg)
    ensures r.name == f.name
    ensures r.RequireField? <==> !IsOptionOrVec(f)
    ensures r.CloneField? ==> StorageField(f).ty == f.ty
    ensures r.RequireField? ==>
              r.message == f.name + " is required" && GetInnerType(StorageField(f).ty) == Some(f.ty)
  {
    if IsOptionOrVec(f) then CloneField(f.name) else RequireField(f.name, RequiredMessage(f.name))
  }

  function BuildArgs(fields: seq<Field>): seq<BuildArg> {
    seq(|fields|, i requires 0 <= i < |fields| => BuildArgOf(fields[i]))
  }

  /** The whole expansion. It is refused unless the input is a struct with
      named fields; when it succeeds, the builder is named after the struct,
      has one storage field, initial value, setter and build argument per field
      of the struct, and its parts agree (`WellFormed`). */
  function Derive(input: DeriveInput): (r: Result<BuilderDecl, MacroError>)
    ensures !(input.data.Struct? && input.data.fields.Named?) ==> r == Failure(NotNamedStruct)
    ensures r.Success? ==>
              && input.data.Struct? && input.data.fields.Named?
              && r.value.target == input.ident
              && r.value.name == input.ident + "Builder"
              && |r.value.storage| == |input.data.fields.named|
              && WellFormed(r.value)
  {
    var fields :- GetStructFields(input.data);
    var setters :- BuildMethods(fields);
    Success(BuilderDecl(
      input.ident,
      BuilderName(input.ident),
      WrappedFields(fields),
      EmptyFieldValues(fields),
      setters,
      BuildArgs(fields)))
  }

  /** The agreement between the parts of a declaration that makes the builder
      usable: a `Vec` starts empty and is replaced, and only a field that starts
      as `None` can be required. */
  ghost predicate WellFormed(d: BuilderDecl) {
    && |d.storage| == |d.initial| == |d.setters| == |d.args|
    && (forall i :: 0 <= i < |d.initial| ==> (d.initial[i] == EmptyVec <==> d.setters[i].assign == Replace))
    && (forall i :: 0 <= i < |d.initial| ==> (d.args[i].RequireField? ==> d.initial[i] == NoneValue))
  }

  /** Different structs get differently named builders. */
  lemma BuilderNameInjective(a: string, b: string)
    ensures BuilderName(a) == BuilderName(b) ==> a == b
  {
    if BuilderName(a) == BuilderName(b) {
      assert a == BuilderName(a)[..|a|];
      assert b == BuilderName(b)[..|b|];
    }
  }

  /** Expansion succeeds exactly for a struct with named fields in which every
      `Option` field names its inner type; otherwise it reports the first
      reason in the order the macro meets them. */
  lemma DeriveOutcome(input: DeriveInput)
    ensures Derive(input).Success? <==>
              input.data.Struct? && input.data.fields.Named? &&
              forall i :: 0 <= i < |input.data.fields.named| ==>
                IsOptionalField(input.data.fields.named[i]) ==> GetInnerType(input.data.fields.named[i].ty).Some?
    ensures !(input.data.Struct? && input.data.fields.Named?) ==> Derive(input) == Failure(NotNamedStruct)
    ensures input.data.Struct? && input.data.fields.Named? && Derive(input).Failure? ==>
              var fields := input.data.fields.named;
              exists k :: 0 <= k < |fields| && Derive(input).error == NoInnerType(fields[k].name) &&
                          IsOptionalField(fields[k]) && GetInnerType(fields[k].ty).None? &&
                          forall j :: 0 <= j < k ==> !(IsOptionalField(fields[j]) && GetInnerType(fields[j].ty).None?)
  {
    if input.data.Struct? && input.data.fields.Named? {
      var fields := input.data.fields.named;
      forall i | 0 <= i < |fields|
        ensures SetterOf(fields[i]).Success? <==> !(IsOptionalField(fields[i]) && GetInnerType(fields[i].ty).None?)
      {
        OptionalAndVecExclusive(fields[i]);
      }
      var r := BuildMethods(fields);
      if r.Failure? {
        var k :| 0 <= k < |fields| && SetterOf(fields[k]) == Failure(r.error) &&
                 forall j :: 0 <= j < k ==> SetterOf(fields[j]).Success?;
        assert Derive(input).error == NoInnerType(fields[k].name);
      }
    }
  }

  /** The declaration emitted for a struct, field by field: the builder is
      named after the struct, each field keeps its name, `Vec` fields start
      empty and are replaced by their setter, every other field starts as
      `None` and its setter stores `Some`, and only fields that are neither
      `Option` nor `Vec` are required, with the message "<name> is required". */
  lemma DeriveShape(input: DeriveInput)
    requires Derive(input).Success?
    ensures var d := Derive(input).value;
            var fields := input.data.fields.named;
            && input.data.Struct? && input.data.fields.Named?
            && d.target == input.ident && d.name == input.ident + "Builder"
            && |d.storage| == |d.initial| == |d.setters| == |d.args| == |fields|
            && forall i :: 0 <= i < |fields| ==>
                 && d.storage[i] == StorageField(fields[i])
                 && (d.initial[i] == EmptyVec <==> IsVecField(fields[i]))
                 && d.setters[i].name == fields[i].name
                 && (d.setters[i].assign == Replace <==> IsVecField(fields[i]))
                 && (IsVecField(fields[i]) ==> d.setters[i].param == fields[i].ty)
                 && (IsOptionalField(fields[i]) ==> GetInnerType(fields[i].ty) == Some(d.setters[i].param))
                 && (!IsOptionOrVec(fields[i]) ==> d.setters[i].param == fields[i].ty)
                 && (d.args[i].RequireField? <==> !IsOptionOrVec(fields[i]))
                 && d.args[i].name == fields[i].name
                 && (d.args[i].RequireField? ==> d.args[i].message == fields[i].name + " is required")
  {
    var fields := input.data.fields.named;
    var d := Derive(input).value;
    forall i | 0 <= i < |fields|
      ensures (d.setters[i].assign == Replace <==> IsVecField(fields[i]))
    {
      OptionalAndVecExclusive(fields[i]);
    }
  }

  /** The emitted code is consistent: `vec![]` initialises exactly the `Vec`
      storage fields and `None` the `Option` ones; a replacing setter takes the
      storage type itself, a wrapping setter the type inside the storage
      `Option`; and `build` gives each field of the struct its declared type,
      by copying the storage when that already has it and by unwrapping it
      otherwise. */
  lemma DerivedCodeIsWellTyped(input: DeriveInput)
    requires Derive(input).Success?
    ensures var d := Derive(input).value;
            var fields := input.data.fields.named;
            && input.data.Struct? && input.data.fields.Named?
            && WellFormed(d)
            && forall i :: 0 <= i < |fields| ==>
                 && (d.initial[i] == EmptyVec ==> IsVecField(d.storage[i]))
                 && (d.initial[i] == NoneValue ==> IsOptionalField(d.storage[i]))
                 && (d.setters[i].assign == Replace ==> d.setters[i].param == d.storage[i].ty)
                 && (d.setters[i].assign == WrapSome ==> GetInnerType(d.storage[i].ty) == Some(d.setters[i].param))
                 && (d.args[i].CloneField? ==> d.storage[i].ty == fields[i].ty)
                 && (d.args[i].RequireField? ==> GetInnerType(d.storage[i].ty) == Some(fields[i].ty))
  {
    DeriveShape(input);
    var fields := input.data.fields.named;
    var d := Derive(input).value;
    forall i | 0 <= i < |fields|
      ensures d.initial[i] == NoneValue ==> IsOptionalField(d.storage[i])
      ensures d.setters[i].assign == WrapSome ==> GetInnerType(d.storage[i].ty) == Some(d.setters[i].param)
    {
      var f := fields[i];
      if !IsOptionOrVec(f) {
        OptionOfRoundTrip(f.name, f.ty);
      }
    }
  }
}
