# Builder derive macro, modelled in Dafny

`#[derive(Builder)]` reads a struct with named fields and generates a companion
`<Name>Builder`. The builder has one storage field for each field of the struct.
`Name::builder()` starts the storage empty, one chained setter per field fills
it, and `build()` turns it into the struct. It fails with `"<field> is required"`
when a field that is neither `Option` nor `Vec` was never set.

The project has four modules:

- `Wrappers` (wrappers.dfy): `Option` and `Result`.
- `Classify` (classify.dfy): the derive input as a small syntax tree, and how
  fields are classified. A type is a path of segments, each with an identifier
  and optional angle-bracketed arguments, or it is `Other`. This module covers
  `get_struct_fields`, `is_wrapper_field`, `is_optional_field`, `is_vec_field`
  and `get_inner_type`.
- `Expansion` (expansion.dfy): what `derive` emits, as a `BuilderDecl` value
  rather than tokens. That value holds the builder's name, its storage fields
  (`wrapped_fields`), their initial values (`empty_field_values`), the setters
  (`build_methods`) and the field initialisers of `build` (`build_args`). The
  compile-time panics become `MacroError` results.
- `GeneratedBuilder` (generated_builder.dfy): what the emitted code does at run
  time. The class `Builder<V>` holds the declaration and a per-field store
  (`seq<Slot<V>>`). Its constructor is `builder()`. `Set` is the setter of one
  field: it updates the store in place and returns the builder for chaining.
  `Build` evaluates the build arguments in declaration order. It stops at the
  first failure, as the `?` operator in the struct literal does. Field values
  are abstract (`V`).

## Model

| member | source | states |
|---|---|---|
| `Classify.GetStructFields` | builder/src/lib.rs:8-18 | succeeds exactly for a struct with named fields, and then returns that struct's field list unchanged and in declaration order; enums, unions, tuple structs and unit structs are refused |
| `Classify.IsWrapperField` | builder/src/lib.rs:28-35 | a field is a `w` field exactly when its type is some path, however qualified, whose last segment is named `w` |
| `Classify.IsOptionalField` | builder/src/lib.rs:20-22 | a field is an `Option` field exactly when its type is some path, however qualified, ending in a segment named `Option` |
| `Classify.IsVecField` | builder/src/lib.rs:24-26 | a field is a `Vec` field exactly when its type is some path, however qualified, ending in a segment named `Vec` |
| `Classify.QualifierIgnored` | builder/src/lib.rs:29-31 | only the last segment decides; a qualifier such as `std::option::` never changes the answer |
| `Classify.NonPathIsNoWrapper` | builder/src/lib.rs:29-34 | a non-path type and an empty path are never wrapper fields |
| `Classify.OptionalAndVecExclusive` | builder/src/lib.rs:20-26 | no field is both an `Option` field and a `Vec` field |
| `Classify.GetInnerType` | builder/src/lib.rs:37-48 | the inner type is `Some(t)` exactly when the type is some path whose last segment has angle-bracketed arguments whose first argument is the type `t` |
| `Classify.NoInnerTypeCases` | builder/src/lib.rs:37-48 | there is no inner type for a non-path type, an empty path, no arguments, parenthesised arguments, empty angle brackets, or a first argument that is not a type |
| `Classify.OptionOfRoundTrip` | builder/src/lib.rs:67-69 | the `Option<t>` the macro writes is classified as an `Option` field, not a `Vec` field, and unwraps back to `t` |
| `Expansion.StorageField` | builder/src/lib.rs:57-72 | a storage field keeps the field's name; it is always an `Option` or a `Vec`; it is a `Vec` exactly when the field is; it has the field's own type for `Option`/`Vec` fields, and otherwise an `Option` whose inner type is the field's type |
| `Expansion.InitialValueOf` | builder/src/lib.rs:73-87 | `vec![]` is given only to a `Vec` storage field and `None` only to an `Option` storage field, so each initial value has its storage's type |
| `Expansion.SetterOf` | builder/src/lib.rs:88-114 | emitting a field's setter fails, naming that field, exactly when the field is an `Option` without an inner type; otherwise the setter has the field's name, replaces the storage exactly for a `Vec` field with a parameter of the storage type, and otherwise stores `Some` of a parameter of the type inside the storage `Option` |
| `Expansion.BuildMethods` | builder/src/lib.rs:88-115 | emitting the setters succeeds exactly when every field's setter can be emitted; it then yields one setter per field in declaration order; otherwise it fails with the error of the first field whose setter cannot be emitted |
| `Expansion.BuildArgOf` | builder/src/lib.rs:116-130 | the `build` initialiser of a field has its name; it is required exactly when the field is neither `Option` nor `Vec`, with message `"<name> is required"` and storage whose inner type is the field's type; otherwise it clones storage of the field's own type |
| `Expansion.Derive` | builder/src/lib.rs:51-156 | an item that is not a struct with named fields is refused with the unsupported-input panic; on success the builder is `<Name>Builder`, has one storage field per field of the struct, and its parts agree (`WellFormed`: a `Vec` starts empty and is replaced, only a field that starts as `None` is required) |
| `Expansion.BuilderNameInjective` | builder/src/lib.rs:55 | appending `Builder` to two different struct names gives two different builder names |
| `Expansion.DeriveOutcome` | builder/src/lib.rs:51-115 | expansion succeeds exactly for a struct with named fields in which every `Option` field has an inner type; any other item fails with the unsupported-input panic; otherwise the failure names the first `Option` field without an inner type |
| `Expansion.DeriveShape` | builder/src/lib.rs:54-130 | the builder is `<Name>Builder`; for each field in order: `Vec` fields start as `vec![]` and their setter replaces the value with its parameter of the field's type; every other field starts as `None` and its setter stores `Some`; an `Option` field's setter takes the inner type, a plain field's setter takes the field's type; only plain fields are required, with the message `"<name> is required"` |
| `Expansion.DerivedCodeIsWellTyped` | builder/src/lib.rs:57-151 | the emitted parts agree: `vec![]` initialises exactly the `Vec` storage fields and `None` the `Option` storage fields; each setter's parameter fits its storage; `build` gives each struct field its declared type, by cloning or by unwrapping |
| `GeneratedBuilder.ArgValue` | builder/src/lib.rs:120-127 | one field initialiser fails exactly when the field is required and its slot holds `None`, with that field's message; a required field otherwise gets the value inside its slot, any other field a copy of its slot |
| `GeneratedBuilder.Evaluate` | builder/src/lib.rs:147-151 | the struct literal of `build`: on success it gives one value per field; on failure its error is the message of some required field |
| `GeneratedBuilder.EvaluateSucceedsIff` | builder/src/lib.rs:116-130 | the build arguments evaluate successfully exactly when no required field holds `None` |
| `GeneratedBuilder.EvaluateValues` | builder/src/lib.rs:116-130 | on success there is one value per field in order: required fields get their unwrapped value, the others a copy of their stored `Option` or `Vec` |
| `GeneratedBuilder.EvaluateFailsOnFirstMissing` | builder/src/lib.rs:126 | on failure the error is the message of the first required field, in declaration order, that holds `None` |
| `GeneratedBuilder.DerivedInitialStore` | builder/src/lib.rs:73-87 | a derived builder starts with every `Vec` field empty and every other field `None` |
| `GeneratedBuilder.DerivedSetterEffect` | builder/src/lib.rs:94-112 | a derived `Vec` field's setter takes a vector and the slot becomes exactly that vector, with no appending; any other field's setter takes one value and the slot becomes `Some` of it |
| `GeneratedBuilder.DerivedBuildOutcome` | builder/src/lib.rs:116-151 | `build` on a derived builder succeeds exactly when every field that is neither `Option` nor `Vec` holds `Some`; it then unwraps those fields and copies the others unchanged; otherwise it fails with `"<name> is required"` for the first such field that holds `None` |
| `GeneratedBuilder.Builder.constructor` | builder/src/lib.rs:136-142 | `builder()` fills the store from the emitted initial values: an empty vector where the declaration says `vec![]`, `None` elsewhere |
| `GeneratedBuilder.Builder.Set` | builder/src/lib.rs:94-112 | a setter overwrites its own slot with its argument (`Vec`) or `Some` of it (others), leaves every other slot unchanged, and returns the same builder |
| `GeneratedBuilder.Builder.Build` | builder/src/lib.rs:147-151 | `build` evaluates the field initialisers in order, stops at the first missing required field, and leaves the store unchanged; the result is `Evaluate` of the build arguments over the store |
| `GeneratedBuilder.BuildIsRepeatable` | builder/src/lib.rs:122-126 | because `build` only clones, calling it twice gives the same struct or the same error |

## Left out

- Token handling is not modelled: `TokenStream`, `parse_macro_input!`, `quote!`, spans and `Ident::new`. The model describes what the emitted code means, not its text.
- `concat!`/`stringify!` are modelled as string concatenation of the field's name and `" is required"`. Raw identifiers (`r#type`) are not distinguished.
- `Box<dyn std::error::Error>` becomes the plain message string. `Clone` is left out because values are abstract and copying them is identity.
- Compile-time panics become explicit `MacroError` results, without their message text. `NoInnerType` also records which field's `unwrap` failed, although the real `unwrap` panic message does not name the field.
- The struct's generics, attributes, visibility and a type's qualified-self part (`<T as Trait>::X`) are not modelled. The macro ignores them as well.
- Setters are addressed by the field's position rather than its name. Field names of a struct are distinct, so the two are equivalent.
- Values stored in the builder are not type-checked at run time. The setter parameter types are modelled at the level of `Type` (`DeriveShape`, `DerivedCodeIsWellTyped`), and `Accepts` gives the run-time shape of the argument: a vector for `Vec` fields, one value otherwise.
- DerivedCodeIsWellTyped, Derive and Builder: name clashes in the emitted code are not modelled. A field named `build` gives the builder both a setter `build` and the `build` method. A struct that already has a `builder` method gets a second one. An existing item named `<Name>Builder` clashes with the generated builder. The compiler rejects all three expansions, but the model accepts them and treats the builder as usable. `BuilderNameInjective` only rules out a clash between two generated builders.
