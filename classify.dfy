/** The derive input and the classification of its fields
    (builder/src/lib.rs, lines 8-48).

    A field's type is a small syntax tree: a path type such as
    `std::option::Option<String>` is a sequence of segments, each an
    identifier with optional arguments; every other kind of type
    (references, tuples, arrays, ...) is `Other`. */
module Classify {
  import opened Wrappers

  datatype Type = Path(segments: seq<PathSegment>) | Other

  /** One `::`-separated segment of a path. */
  datatype PathSegment = PathSegment(ident: string, arguments: PathArguments)

  /** Nothing, `<A, B, ...>`, or the parenthesised `(A, B) -> C` of `Fn` types. */
  datatype PathArguments =
    | NoArguments
    | AngleBracketed(args: seq<GenericArgument>)
    | Parenthesized

  /** An angle-bracketed argument: a type, or anything else (a lifetime,
      a constant, an associated-type binding, ...). */
  datatype GenericArgument = TypeArg(ty: Type) | NonTypeArg

  datatype Field = Field(name: string, ty: Type)

  /** `{ a: A, b: B }`, `(A, B)` or nothing. */
  datatype Fields = Named(named: seq<Field>) | Unnamed(types: seq<Type>) | Unit

  datatype Data = Struct(fields: Fields) | Enum | Union

  /** The item the macro is applied to: its name and its body. */
  datatype DeriveInput = DeriveInput(ident: string, data: Data)

  /** The two ways expansion aborts: the panic of `get_struct_fields`, and the
      `unwrap` of a missing inner type when the setter of an `Option` field is
      emitted. */
  datatype MacroError = NotNamedStruct | NoInnerType(field: string)

  function Last<T>(s: seq<T>): T
    requires |s| > 0
  {
    s[|s| - 1]
  }

  /** The path type `qualifier::last`. */
  function Qualified(qualifier: seq<PathSegment>, last: PathSegment): Type {
    Path(qualifier + [last])
  }

  /** `Option<t>`, written without qualification as the macro writes it. */
  function OptionOf(t: Type): Type {
    Path([PathSegment("Option", AngleBracketed([TypeArg(t)]))])
  }

  /** The fields of a struct with named fields, in declaration order; any other
      item is refused. */
  function GetStructFields(data: Data): (r: Result<seq<Field>, MacroError>)
    ensures r.Success? <==> data.Struct? && data.fields.Named?
    ensures r.Success? ==> data == Struct(Named(r.value))
    ensures r.Failure? ==> r.error == NotNamedStruct
  {
    match data
    case Struct(Named(fields)) => Success(fields)
    case _ => Failure(NotNamedStruct)
  }

  /** A path splits into its qualifier and its last segment. */
  lemma SplitLast(segments: seq<PathSegment>)
    requires |segments| > 0
    ensures Path(segments) == Qualified(segments[..|segments| - 1], Last(segments))
  {
    assert segments == segments[..|segments| - 1] + [Last(segments)];
  }

  /** Whether the field's type is a path whose last segment is `wrapper`:
      exactly when the type is some path, however qualified, that ends in a
      segment named `wrapper`. */
  predicate IsWrapperField(f: Field, wrapper: string): (r: bool)
    ensures r <==> exists qualifier, arguments :: f.ty == Qualified(qualifier, PathSegment(wrapper, arguments))
  {
    match f.ty
    case Path(segments) =>
      |segments| > 0 && (SplitLast(segments); Last(segments).ident == wrapper)
    case Other => false
  }

  predicate IsOptionalField(f: Field): (r: bool)
    ensures r <==> exists qualifier, arguments :: f.ty == Qualified(qualifier, PathSegment("Option", arguments))
  {
    IsWrapperField(f, "Option")
  }

  predicate IsVecField(f: Field): (r: bool)
    ensures r <==> exists qualifier, arguments :: f.ty == Qualified(qualifier, PathSegment("Vec", arguments))
  {
    IsWrapperField(f, "Vec")
  }

  /** The first angle-bracketed argument of the last path segment, if it is a
      type: `Some(t)` exactly when the type is some path ending in a segment
      whose arguments are `<t, ...>`. */
  function GetInnerType(ty: Type): (r: Option<Type>)
    ensures r.Some? ==>
              exists qualifier, ident, rest ::
                ty == Qualified(qualifier, PathSegment(ident, AngleBracketed([TypeArg(r.value)] + rest)))
    ensures forall qualifier, ident, inner, rest ::
              ty == Qualified(qualifier, PathSegment(ident, AngleBracketed([TypeArg(inner)] + rest))) ==>
                r == Some(inner)
  {
    match ty
    case Other => None
    case Path(segments) =>
      if |segments| == 0 then None
      else
        match Last(segments).arguments
        case AngleBracketed(args) =>
          if |args| > 0 && args[0].TypeArg? then
            SplitLast(segments);
            assert args == [args[0]] + args[1..];
            Some(args[0].ty)
          else None
        case _ => None
  }

  /** Only the last segment decides: a qualifier never changes the answer. */
  lemma QualifierIgnored(name: string, qualifier: seq<PathSegment>, last: PathSegment, wrapper: string)
    ensures IsWrapperField(Field(name, Qualified(qualifier, last)), wrapper) <==> last.ident == wrapper
    ensures IsWrapperField(Field(name, Qualified(qualifier, last)), wrapper) ==
            IsWrapperField(Field(name, Path([last])), wrapper)
  {
  }

  /** Non-path types and the empty path are never wrappers. */
  lemma NonPathIsNoWrapper(name: string, wrapper: string)
    ensures !IsWrapperField(Field(name, Other), wrapper)
    ensures !IsWrapperField(Field(name, Path([])), wrapper)
  {
  }

  /** A last segment has a single identifier, so no field is both `Option` and `Vec`. */
  lemma OptionalAndVecExclusive(f: Field)
    ensures !(IsOptionalField(f) && IsVecField(f))
  {
  }

  /** The cases in which there is no inner type. */
  lemma NoInnerTypeCases(qualifier: seq<PathSegment>, ident: string, rest: seq<GenericArgument>)
    ensures GetInnerType(Other) == None
    ensures GetInnerType(Path([])) == None
    ensures GetInnerType(Qualified(qualifier, PathSegment(ident, NoArguments))) == None
    ensures GetInnerType(Qualified(qualifier, PathSegment(ident, Parenthesized))) == None
    ensures GetInnerType(Qualified(qualifier, PathSegment(ident, AngleBracketed([])))) == None
    ensures GetInnerType(Qualified(qualifier, PathSegment(ident, AngleBracketed([NonTypeArg] + rest)))) == None
  {
  }

  /** `Option<t>` is recognised as an optional field and unwraps back to `t`. */
  lemma OptionOfRoundTrip(name: string, t: Type)
    ensures IsOptionalField(Field(name, OptionOf(t)))
    ensures !IsVecField(Field(name, OptionOf(t)))
    ensures GetInnerType(OptionOf(t)) == Some(t)
  {
  }
}
