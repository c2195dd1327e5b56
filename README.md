# aspartial, modelled in Dafny

`aspartial` gives a Rust type a *partial* counterpart: a type whose values may
lack any part of the original, so that incomplete JSON can still be decoded.
The runtime crate defines the `AsPartial` trait (`type Partial`,
`to_partial`) and its impls for scalar types, `Arc<str>`, `Option`, `Vec` and
`serde_json::Map`. The companion proc-macro `#[derive(AsPartial)]` generates
the partial type:

- for a **struct**, a copy whose fields are public and, unless they carry a
  serde default marker, optional;
- for an **enum**, a struct with one optional slot per tuple variant, plus a
  `TryFrom<serde_json::Value>` that fills the slots according to the enum's
  serde tagging convention (untagged, internally, adjacently or externally
  tagged).

The macro is configured by `#[aspartial(name = …)]` and
`#[aspartial(attrs(…))]`, and reads serde's own `tag`, `content`,
`untagged`, `rename`, `rename_all` and `default` attributes.

The model is split into modules that follow the crate's files:

| module | file | source |
|---|---|---|
| `Wrappers` | wrappers.dfy | `Option`/`Result`, and the first-match scans (`find_map`, a labelled-`break` search) |
| `Syntax` | syntax.dfy | the syn values the macro reads and writes (attributes, fields, variants, where-clauses), and token parsers over a token sequence |
| `Heck` | heck.dfy | the `heck` case conversions, passed in as functions |
| `AttrExt` | attr_ext.dfy | `is_serde_attr` |
| `SerdeAttributes` | serde_attributes.dfy | aspartial_derive/src/serde_attributes.rs |
| `SynExtensions` | syn_extensions.dfy | aspartial_derive/src/syn_extensions/mod.rs |
| `DeriveConfig` | derive_config.dfy | aspartial_derive/src/derive_config.rs |
| `Json` | json.dfy | the JSON value model of RFC 8259, section 3, with lookup by member name as in section 4 |
| `PartialDecode` | partial_decode.dfy | the `TryFrom<serde_json::Value>` bodies that `make_partial_enum` emits |
| `AsPartialMacro` | as_partial.dfy | aspartial_derive/src/as_partial.rs |
| `AsPartialRuntime` | runtime.dfy | aspartial/src/lib.rs |

`AttrExt` is a module of its own because serde_attributes.rs and
syn_extensions/mod.rs use each other, and Dafny modules cannot import each
other both ways.

How the source becomes Dafny:

- **Token parsers.** A syn `Parse` impl becomes a function from a token
  sequence to a `Result` of the parsed value and the unconsumed rest.
  `MetaList::parse_args` (`Syntax.ParseArgs`) rejects any unconsumed token
  with `"unexpected token"`, as syn's `parse2` does.
  An error raised at the cursor when no token is left carries syn's
  "unexpected end of input, " prefix (`Syntax.CursorError`).
- **Loops.** The loops of the source are methods:
  - `where_clause_for_partial`;
  - the field rewrite in `make_partial_struct`;
  - `SerdeEnumTagParams::from_attributes`;
  - `ConfigsForAsPartial::from_attrs`;
  - the `collect::<syn::Result<_>>()` over variants.

  Each is proved against a function that specifies its result.
- **Generated decoder.** The code `make_partial_enum` generates is modelled
  by what it does. `PartialDecode.TryFrom` interprets a JSON value into the
  slot list. Each variant's `serde_json::from_value` is an arbitrary total
  payload decoder `Json -> Option<P>`.
- **Feature flag.** `cfg!(feature = "serde")` is the parameter `serde`.

## Model

| member | source | states |
|---|---|---|
| Wrappers.FindMap | aspartial_derive/src/syn_extensions/mod.rs:64-65 | `find_map`: Some exactly when some element maps to Some, and then it is the value of the first such element |
| Wrappers.FirstIndex | aspartial_derive/src/as_partial.rs:61-69 | the index of the first element satisfying the predicate; None only when no element does |
| Syntax.Fields.WithAll | aspartial_derive/src/as_partial.rs:189 | replacing the fields keeps the field kind (named, tuple, unit) and installs exactly the given fields |
| Syntax.WhereClause.PushValue | aspartial_derive/src/as_partial.rs:24-27 | pushing a predicate onto an empty or comma-terminated list appends it and leaves no trailing comma |
| Syntax.WhereClause.PushPunct | aspartial_derive/src/as_partial.rs:17-19 | a comma may follow only a predicate; the predicates are unchanged and the list now ends in a comma |
| Syntax.ParseIdent | aspartial_derive/src/serde_attributes.rs:9 | succeeds exactly on a leading identifier, consuming it; otherwise "expected identifier", prefixed by "unexpected end of input, " when no token is left, as syn's cursor error is |
| Syntax.ParseEq | aspartial_derive/src/serde_attributes.rs:16 | succeeds exactly on a leading `=`, consuming it |
| Syntax.ParseLitStr | aspartial_derive/src/serde_attributes.rs:17 | succeeds exactly on a leading string literal, yielding its value; otherwise "expected string literal", with the same end-of-input prefix |
| Syntax.ParseArgs | aspartial_derive/src/serde_attributes.rs:37 | `parse_args` succeeds exactly when the parser succeeds and consumes every token; a parser error passes through |
| Syntax.ParseKeyEqualsLitStr | aspartial_derive/src/serde_attributes.rs:102 | `key = "value"` parses exactly from identifier, `=`, string literal, and yields that key and value |
| AttrExt.IsSerdeAttr | aspartial_derive/src/syn_extensions/mod.rs:12-18 | `is_serde_attr`; specified by `AttrExt.SerdeAttrByLastSegment` |
| AttrExt.SerdeAttrByLastSegment | aspartial_derive/src/syn_extensions/mod.rs:12-18 | `is_serde_attr` is false for an empty path, and otherwise true exactly when the last segment is a bare `serde` |
| SerdeAttributes.ParseDefaultParams | aspartial_derive/src/serde_attributes.rs:6-20 | the `default` argument parser; specified by `SerdeAttributes.DefaultArgsGrammar` |
| SerdeAttributes.DefaultArgsGrammar | aspartial_derive/src/serde_attributes.rs:6-20 | the `default` arguments are accepted exactly as `default` or `default = "<lit>"`; another leading identifier gives "Expected 'default' token" |
| SerdeAttributes.StrLessTrichotomy | aspartial_derive/src/serde_attributes.rs:73 | the string order used to sort the two pairs is irreflexive and total on distinct strings |
| SerdeAttributes.ParseTerminatedKeyVals | aspartial_derive/src/serde_attributes.rs:59 | `parse_terminated` consumes all input, and what it read is the parsed pairs separated by commas, with an optional trailing comma |
| SerdeAttributes.KeyValListRoundTrip | aspartial_derive/src/serde_attributes.rs:59 | a comma-separated list of pairs parses back to exactly those pairs |
| SerdeAttributes.KeyValListTrailingRoundTrip | aspartial_derive/src/serde_attributes.rs:59 | a non-empty comma-separated list of pairs followed by a trailing comma parses back to exactly those pairs, consuming everything |
| SerdeAttributes.TagParamsFromPairs | aspartial_derive/src/serde_attributes.rs:58-86 | internally tagged exactly for the single pair `tag`; adjacently tagged exactly for one `tag` and one `content` pair in either order. Otherwise it gives the source's messages: "Expected at least one param" for none, "Expected at most one param" for three or more, "expected key to be 'tag'" for a single other key. For two pairs the keys are sorted, and the message names the first key that is wrong: 'content' for the smaller key, 'tag' for the larger |
| SerdeAttributes.TagPairsOrderInsensitive | aspartial_derive/src/serde_attributes.rs:73-86 | the result for two pairs does not depend on their order |
| SerdeAttributes.ParseTagParams | aspartial_derive/src/serde_attributes.rs:51-87 | the parse gives `Untagged` exactly on a leading `untagged`, which it consumes (corrected, see Findings) |
| SerdeAttributes.TagArgsFromPairs | aspartial_derive/src/serde_attributes.rs:58-86 | the tag parameters of a pair list not starting with `untagged` are those the pair rules give |
| SerdeAttributes.UntaggedArgsGrammar | aspartial_derive/src/serde_attributes.rs:52-56 | the arguments give `Untagged` exactly when they are `untagged` alone |
| SerdeAttributes.ParseTagParamsAsWritten | aspartial_derive/src/serde_attributes.rs:51-87 | the parse as written, which leaves `untagged` unconsumed; specified by `SerdeAttributes.UntaggedNeverParses` |
| SerdeAttributes.UntaggedNeverParses | aspartial_derive/src/serde_attributes.rs:52-56 | as written, the arguments never parse to `Untagged`, and `untagged` alone fails with "unexpected token" |
| SerdeAttributes.TagParamsTryFromAttr | aspartial_derive/src/serde_attributes.rs:30-38 | tag parameters exactly for a list-form serde attribute whose arguments parse completely, and they are the parse result |
| SerdeAttributes.TagParamsFromAttributes | aspartial_derive/src/serde_attributes.rs:40-47 | the result of the first attribute that yields parameters; `ExternallyTagged` when none does |
| SerdeAttributes.FromAttributes | aspartial_derive/src/serde_attributes.rs:40-47 | the loop with early return computes that first-match result |
| SerdeAttributes.TagParamsTryFromAttrAsWritten | aspartial_derive/src/serde_attributes.rs:30-38 | `try_from_attr` over the parse as written; specified by `SerdeAttributes.UntaggedAttributeIgnored` |
| SerdeAttributes.UntaggedAttributeIgnored | aspartial_derive/src/serde_attributes.rs:30-56 | as written, `#[serde(untagged)]` resolves to `ExternallyTagged` |
| SerdeAttributes.UntaggedAttributeHonoured | aspartial_derive/src/serde_attributes.rs:40-56 | with the correction, `#[serde(untagged)]` resolves to `Untagged` |
| SerdeAttributes.RenameStyleTryFrom | aspartial_derive/src/serde_attributes.rs:154-171 | an accepted string is the spelling of the style returned; a rejected one ("Invalid rename style") is the spelling of no style |
| SerdeAttributes.RenameStyleRoundTrip | aspartial_derive/src/serde_attributes.rs:159-167 | each of the eight spellings is accepted as its own style |
| SerdeAttributes.AsciiLowercase | aspartial_derive/src/serde_attributes.rs:141 | same length, every upper-case ASCII letter becomes the lower-case letter at the same alphabet position, every other character unchanged |
| SerdeAttributes.AsciiUppercase | aspartial_derive/src/serde_attributes.rs:142 | same length, every lower-case ASCII letter becomes the upper-case letter at the same alphabet position, every other character unchanged |
| SerdeAttributes.AsciiCaseRoundTrip | aspartial_derive/src/serde_attributes.rs:141-142 | lowercasing then uppercasing a string with no lower-case letter gives it back, and the other way round |
| SerdeAttributes.Transform | aspartial_derive/src/serde_attributes.rs:138-151 | `RenameStyle::transform`: the two ASCII case styles and the six `heck` conversions; specified by `SerdeAttributes.AsciiLowercase`, `SerdeAttributes.AsciiUppercase` and `SerdeAttributes.CaseStylesIdempotent` |
| SerdeAttributes.CaseStylesIdempotent | aspartial_derive/src/serde_attributes.rs:141-142 | applying `lowercase` or `UPPERCASE` twice is applying it once |
| SerdeAttributes.ParseRename | aspartial_derive/src/serde_attributes.rs:100-112 | the `rename` argument parser; specified by `SerdeAttributes.RenameArgsGrammar` |
| SerdeAttributes.RenameArgsGrammar | aspartial_derive/src/serde_attributes.rs:100-112 | `rename` arguments parse exactly as `rename = "<lit>"` and yield the literal unchanged |
| SerdeAttributes.InnerRenameTryFromAttr | aspartial_derive/src/serde_attributes.rs:114-124 | Some exactly for a list-form serde attribute whose arguments parse, and then the arguments are `rename = "<result>"` |
| SerdeAttributes.ParseRenameAll | aspartial_derive/src/serde_attributes.rs:182-195 | the `rename_all` argument parser; specified by `SerdeAttributes.RenameAllArgsGrammar` |
| SerdeAttributes.RenameAllArgsGrammar | aspartial_derive/src/serde_attributes.rs:182-195 | `rename_all` arguments parse exactly as `rename_all = "<one of the eight spellings>"`; a well-formed pair with another spelling gives the style error |
| SerdeAttributes.OuterRenameTryFromAttr | aspartial_derive/src/serde_attributes.rs:197-207 | Some exactly for a list-form serde attribute whose arguments parse, and then they are `rename_all = "<spelling of the style>"` |
| SynExtensions.IsSerdeDefault | aspartial_derive/src/syn_extensions/mod.rs:19-33 | the default-marker test; specified by `SynExtensions.IsSerdeDefaultExactly` |
| SynExtensions.IsSerdeDefaultExactly | aspartial_derive/src/syn_extensions/mod.rs:19-33 | a default marker is exactly an outer, list-form serde attribute whose arguments are `default` or `default = "<lit>"` |
| SynExtensions.PartialFieldName | aspartial_derive/src/syn_extensions/mod.rs:44-47 | `partial_field_name`: the `snake` conversion of the variant's identifier; the slot names of `SynExtensions.AsPartialField` and `AsPartialMacro.Slots` are stated through it |
| SynExtensions.AsPartialField | aspartial_derive/src/syn_extensions/mod.rs:49-61 | succeeds exactly for tuple variants ("Only unnamed fields supported for now" otherwise), giving a slot named by `partial_field_name` and typed `Option<<Payload as AsPartial>::Partial>` |
| SynExtensions.Tag | aspartial_derive/src/syn_extensions/mod.rs:63-74 | the variant's first `rename` wins; without one the `rename_all` style is applied to the identifier; without that the identifier is used as is |
| SynExtensions.FieldTypes | aspartial_derive/src/syn_extensions/mod.rs:75-81 | the field types in order, none for a unit variant |
| SynExtensions.OuterRename | aspartial_derive/src/syn_extensions/mod.rs:92 | the style of the first attribute that parses as `rename_all`, or none when none does |
| SynExtensions.TaggedVariants | aspartial_derive/src/syn_extensions/mod.rs:91-94 | one (tag, variant) pair per variant in declaration order, all under the enum's first `rename_all` |
| SynExtensions.RenameOverridesStyle | aspartial_derive/src/syn_extensions/mod.rs:63-74 | a variant's first `rename`, at any position among its attributes, is its tag whatever the enum's `rename_all` style (or its absence) |
| DeriveConfig.AttrToks | aspartial_derive/src/derive_config.rs:38 | one attribute token per attribute, in order |
| DeriveConfig.OuterAttrRun | aspartial_derive/src/derive_config.rs:38 | the longest run of outer attributes: the input is those attributes followed by a rest that does not start with one |
| DeriveConfig.ParseOuterAttrs | aspartial_derive/src/derive_config.rs:38 | `parse_outer` yields that run, and fails with "expected square brackets" exactly when the rest starts with a `#` that does not open an outer attribute (an inner `#![..]` or a lone `#`); a lone `#` at the very end gets the "unexpected end of input, " prefix |
| DeriveConfig.OuterAttrsRoundTrip | aspartial_derive/src/derive_config.rs:38 | a list of outer attributes parses back to itself, consuming everything |
| DeriveConfig.ParseConfig | aspartial_derive/src/derive_config.rs:23-46 | `Config::parse`; specified by `DeriveConfig.NameArgsGrammar`, `DeriveConfig.AttrsArgsGrammar` and `DeriveConfig.UnknownConfigRejected`. A missing `(..)` after `attrs` gives "expected parentheses" with the end-of-input prefix when nothing follows |
| DeriveConfig.NameArgsGrammar | aspartial_derive/src/derive_config.rs:26-32 | the arguments give `Name(n)` exactly when they are `name = n` |
| DeriveConfig.AttrsArgsGrammar | aspartial_derive/src/derive_config.rs:33-40 | the arguments give `Attrs(attrs)` exactly when they are `attrs(...)` holding exactly those outer attributes |
| DeriveConfig.UnknownConfigRejected | aspartial_derive/src/derive_config.rs:41-44 | any other leading identifier gives "Unrecognized AsPartial config. Expected 'name', 'attrs' or 'derive', found …" |
| DeriveConfig.FromAttrs | aspartial_derive/src/derive_config.rs:54-82 | the loop computes the left-to-right accumulation of name and attrs over the attributes |
| DeriveConfig.AccumulateOutcome | aspartial_derive/src/derive_config.rs:58-81 | the accumulation succeeds exactly when every `aspartial` list parses and at most one `name` is seen in total, and then it yields the first name and the collected attrs |
| DeriveConfig.ConfigsFromAttrs | aspartial_derive/src/derive_config.rs:54-82 | the result of `from_attrs`; specified by `DeriveConfig.ConfigsOutcome` and computed by the loop `DeriveConfig.FromAttrs` |
| DeriveConfig.ConfigsOutcome | aspartial_derive/src/derive_config.rs:54-82 | success exactly when every `aspartial` list parses and there is exactly one `name`; the attrs are the in-order concatenation of all `attrs(...)`; no name gives "no partial name set" |
| DeriveConfig.NameCountFindsName | aspartial_derive/src/derive_config.rs:66-70 | a name is found exactly when at least one `name` config is present |
| DeriveConfig.SkipsOtherAttributes | aspartial_derive/src/derive_config.rs:59-64 | an attribute that is not a list-form `aspartial` attribute changes nothing |
| DeriveConfig.ParseErrorAborts | aspartial_derive/src/derive_config.rs:65 | a parse error in any `aspartial` attribute is the error of the whole call, whatever follows |
| DeriveConfig.SecondNameRejected | aspartial_derive/src/derive_config.rs:66-69 | a second `name` gives "Setting partial name again", whatever follows |
| DeriveConfig.AccumulatePrefix | aspartial_derive/src/derive_config.rs:58-76 | reading a prefix of the attributes that raises no error, then the rest, is the same as reading the rest from the state the prefix leaves |
| Json.Get | aspartial_derive/src/as_partial.rs:73 | `Value::get` is Some exactly for an object having the key, and then it is that member |
| PartialDecode.EmptyPartial | aspartial_derive/src/as_partial.rs:55-57 | one empty slot per variant |
| PartialDecode.PartialFromValue | aspartial_derive/src/as_partial.rs:58-60 | one slot per variant |
| PartialDecode.TagIndex | aspartial_derive/src/as_partial.rs:62-67 | the first variant in declaration order whose tag equals the string, or none when none does |
| PartialDecode.PartialFromTag | aspartial_derive/src/as_partial.rs:61-69 | one slot per variant |
| PartialDecode.KeyIndex | aspartial_derive/src/as_partial.rs:73-78 | the first variant whose tag is a member of the value, or none when no tag is |
| PartialDecode.PartialFromOuterTagged | aspartial_derive/src/as_partial.rs:70-81 | one slot per variant |
| PartialDecode.DecodeInternallyTagged | aspartial_derive/src/as_partial.rs:108-112 | one slot per variant |
| PartialDecode.DecodeAdjacentlyTagged | aspartial_derive/src/as_partial.rs:116-128 | one slot per variant (tag read from the outer value; corrected, see Findings) |
| PartialDecode.TryFrom | aspartial_derive/src/as_partial.rs:95-137 | every generated `try_from` returns Ok with one slot per variant, in all four conventions |
| PartialDecode.UntaggedTriesEveryVariant | aspartial_derive/src/as_partial.rs:96-103 | untagged: each slot is its own decoder applied to the whole value, independently of the others |
| PartialDecode.InternallyTaggedWithoutStringTag | aspartial_derive/src/as_partial.rs:108-111 | internally tagged, when the tag member is missing or not a string, equals untagged |
| PartialDecode.InternallyTaggedSelectsFirstMatch | aspartial_derive/src/as_partial.rs:61-69 | with a string tag, the first variant carrying it decodes the whole value and every other slot is empty |
| PartialDecode.InternallyTaggedUnknownTag | aspartial_derive/src/as_partial.rs:67 | a string tag no variant carries leaves every slot empty |
| PartialDecode.AdjacentlyTaggedSelectsFirstMatch | aspartial_derive/src/as_partial.rs:116-128 | adjacently tagged with a string tag: the first variant carrying it decodes the content member, and every other slot is empty |
| PartialDecode.AdjacentlyTaggedUnknownTag | aspartial_derive/src/as_partial.rs:116-128 | adjacently tagged with a string tag no variant carries: every slot is empty |
| PartialDecode.AdjacentlyTaggedWithoutContent | aspartial_derive/src/as_partial.rs:116-128 | adjacently tagged with a string tag and no content member: the selected variant decodes the whole value, and every other slot is empty |
| PartialDecode.AdjacentlyTaggedWithoutStringTag | aspartial_derive/src/as_partial.rs:120-123 | adjacently tagged without a string tag: every slot decodes the content member (or the value when there is none) |
| PartialDecode.ExternallyTaggedSelectsFirstKey | aspartial_derive/src/as_partial.rs:70-78 | the first variant whose tag is a member decodes that member, and every other slot is empty |
| PartialDecode.ExternallyTaggedFallsBack | aspartial_derive/src/as_partial.rs:79 | when no tag is a member, externally tagged equals untagged |
| PartialDecode.DecodeAdjacentlyTaggedAsWritten | aspartial_derive/src/as_partial.rs:120-125 | the body as written: one slot per variant |
| PartialDecode.AsWrittenIsInternalOnContent | aspartial_derive/src/as_partial.rs:120-125 | as written, adjacently tagged is internally tagged run on the content member (or the value when there is none) |
| PartialDecode.AdjacentTagReadFromContent | aspartial_derive/src/as_partial.rs:120-125 | on `{"variant_tag": "Variant1", "the_content": {…}}` the body as written fills both slots |
| PartialDecode.OuterTagExample | aspartial/tests/test_derive_tagged_enum.rs:49-64 | on the same value the generated partial enum fills only the first slot, as the test expects |
| AsPartialMacro.WhereClauseForPartial | aspartial_derive/src/as_partial.rs:10-36 | the result keeps the original predicates, adds the field bounds after them, and every predicate is followed by a comma |
| AsPartialMacro.FieldBoundsLength | aspartial_derive/src/as_partial.rs:21-34 | one `AsPartial` bound per field plus one `Default` bound per regular-default field |
| AsPartialMacro.FieldBoundsPrefix | aspartial_derive/src/as_partial.rs:21-34 | the bounds of the first k fields are a prefix of the bounds (field order is kept) |
| AsPartialMacro.FieldBoundsAt | aspartial_derive/src/as_partial.rs:24-33 | field k's group opens with its `AsPartial` bound, and a `Default` bound for the same type follows immediately exactly when the field is a regular default |
| AsPartialMacro.SerdeOnly | aspartial_derive/src/as_partial.rs:192 | `retain(is_serde_attr)` keeps exactly the serde attributes |
| AsPartialMacro.SerdeOnlyConcat | aspartial_derive/src/as_partial.rs:192 | `retain` keeps order and multiplicity: filtering a concatenation concatenates the filtered parts |
| AsPartialMacro.SerdeOnlySingle | aspartial_derive/src/as_partial.rs:192 | a single attribute is kept exactly when it is a serde attribute |
| AsPartialMacro.FieldBoundsStep | aspartial_derive/src/as_partial.rs:21-34 | the bounds of the first k+1 fields are those of the first k followed by field k's group |
| AsPartialMacro.FieldBoundsGroup | aspartial_derive/src/as_partial.rs:21-34 | field k's group sits in the bounds right after the groups of the fields before it |
| AsPartialMacro.FieldBoundShape | aspartial_derive/src/as_partial.rs:24-33 | a field's group is its `AsPartial` bound, followed by a `Default` bound exactly when the field is a regular default |
| AsPartialMacro.RewriteFields | aspartial_derive/src/as_partial.rs:189-204 | one rewritten field per original field, in order, each made `pub` under its own name. With serde it keeps only its serde attributes; unless one of them is a default marker, it also gets `#[serde(default)]` appended and the type `Option<<T as AsPartial>::Partial>`. Without serde it loses all attributes and always gets that optional type |
| AsPartialMacro.MakePartialStruct | aspartial_derive/src/as_partial.rs:170-225 | fails exactly when the config fails, with its error; otherwise the partial struct has the configured name, then the config attrs and the serde derive attrs; it has the same field kind, count and order, each field rewritten by the rule; and there are two impls under the computed where-clause |
| AsPartialMacro.AppendedDefaultIsMarker | aspartial_derive/src/as_partial.rs:196 | the appended `#[serde(default)]` is a serde attribute and a default marker |
| AsPartialMacro.Slots | aspartial_derive/src/as_partial.rs:52-54 | one (field name, wire tag) per variant, in declaration order |
| AsPartialMacro.CollectPartialFields | aspartial_derive/src/as_partial.rs:85-87 | all slots in order when every variant is a tuple variant; otherwise the first variant's error |
| AsPartialMacro.VariantFields | aspartial_derive/src/as_partial.rs:90 | the fields of all variants, flattened in order; specified by `AsPartialMacro.VariantFieldsConcat` |
| AsPartialMacro.VariantFieldsConcat | aspartial_derive/src/as_partial.rs:90 | `flatten` keeps order: the fields of two runs of variants are the first run's fields followed by the second's |
| AsPartialMacro.MakePartialEnum | aspartial_derive/src/as_partial.rs:38-168 | the config error comes first, then the slot error exactly when some variant is not a tuple variant. Otherwise: a `pub` struct with the serde attrs and then the config attrs, one slot per variant, a where-clause over all variants' fields, and, with serde only, a `TryFrom` for the enum's tagging convention over the variants' wire tags |
| AsPartialMacro.DoDeriveAsPartial | aspartial_derive/src/as_partial.rs:227-236 | a struct gets the struct expansion (`IsStructExpansion`) or the config error. An enum gets the enum expansion (`IsEnumExpansion`), the config error, or "Only unnamed fields supported for now". Anything else is "Must apply to enum or struct" |
| AsPartialMacro.GeneratedTryFromDecodesVariants | aspartial_derive/src/as_partial.rs:95-137 | the `TryFrom` generated for an enum with serde (the one `MakePartialEnum` ensures) is the decoding procedure of the convention named by the enum's attributes, run over its variants in order under their wire tags |
| AsPartialRuntime.ToPartial | aspartial/src/lib.rs:26-85 | scalars and maps convert to themselves; `Arc<str>` converts to a `String` with the same text; `Option` keeps `None` and converts `Some`'s content; `Vec` keeps length and order and converts each element |
| AsPartialRuntime.PartialType | aspartial/src/lib.rs:26-85 | the `type Partial` of each impl; specified by `AsPartialRuntime.ToPartialWellTyped`, `AsPartialRuntime.PartialTypeIdempotent` and `AsPartialRuntime.SelfPartialTypes` |
| AsPartialRuntime.ToPartialWellTyped | aspartial/src/lib.rs:6-10 | `to_partial` of a value of type T is a value of `T::Partial` |
| AsPartialRuntime.PartialTypeIdempotent | aspartial/src/lib.rs:7 | the partial type of a partial type is itself |
| AsPartialRuntime.ToPartialIdempotent | aspartial/src/lib.rs:28-32 | converting twice is converting once |
| AsPartialRuntime.SelfPartialTypes | aspartial/src/lib.rs:26-78 | a type is its own partial type exactly when it is built from `Partial = Self` types with `Option` and `Vec` |
| AsPartialRuntime.SelfPartialIdentity | aspartial/src/lib.rs:28-32 | on those types `to_partial` is the identity |

## Left out

- aspartial/build.rs only reads the environment and a manifest to print build diagnostics. It is not part of this model.
- The proc-macro entry point in aspartial_derive/src/lib.rs is not part of this model. It only turns a `syn::Error` into a compile error. `do_derive_as_partial`'s own `syn::parse::<syn::Item>` is not modelled either: the model starts from a parsed item.
- Token emission, spans and `quote!`/`parse_quote!` are not modelled. The model describes the generated items as values, and the generated `TryFrom` by its behaviour (`PartialDecode`). The `TryFromImpl` in an `Expansion` holds exactly the convention and the (slot, tag) pairs that `PartialDecode.TryFrom` takes (`AsPartialMacro.GeneratedTryFromDecodesVariants`).
- `serde_json::from_value` and serde's derived deserializers are arbitrary per-variant decoders. How serde decodes a payload record is not modelled.
- The `heck` conversions (snake, Pascal, lower camel, shouty snake, kebab, shouty kebab) are functions passed in (`Heck.CaseConversions`). `PartialFieldName` uses `snake` from that parameter.
- SerdeAttributes.AsciiLowercase: models `str::to_lowercase` only for ASCII letters. Unicode case mapping is not modelled.
- SerdeAttributes.AsciiUppercase: models `str::to_uppercase` only for ASCII letters, for the same reason.
- `is_serde_regular_default` and `is_serde_any_default` are called at as_partial.rs:29 and :193 but defined in no file of this model. They are predicates passed in (`AsPartialMacro.DefaultMarkers`).
- `IEnumExt::as_partial_struct` (syn_extensions/mod.rs:95-184) is never called and does not compile as written. `IWhereClauseExt::for_partial` and `IStructExt` are never called. None of them is modelled.
- The `util` module (`KeyEqualsLitStr`) is not part of this model. It is taken to parse identifier, `=`, string literal (`Syntax.ParseKeyEqualsLitStr`).
- DeriveConfig.FromAttrs: requires every attribute path to be non-empty. The source would panic on the `unwrap()` at derive_config.rs:59.
- AsPartialMacro.MakePartialStruct: requires non-empty attribute paths, for the same `unwrap()`.
- AsPartialMacro.MakePartialEnum: requires non-empty attribute paths, for the same `unwrap()`. It also requires each tuple variant that comes before the first non-tuple variant to have one field without attributes or visibility and no trailing comma (`V(A,)` would splice `<A, as ..>`). For such a variant the `parse_quote!` in `as_partial_field` (syn_extensions/mod.rs:57-60) would panic at expansion time rather than return an error. Variants after the first non-tuple variant are never quoted, because `collect` (as_partial.rs:85-87) stops at that variant's error.
- AsPartialMacro.CollectPartialFields: requires the same shape of the variants the loop reaches, for the same reason.
- AsPartialMacro.DoDeriveAsPartial: requires of an enum what `MakePartialEnum` requires, and of a struct non-empty attribute paths.
- SynExtensions.AsPartialField: requires the same one-plain-field shape without a trailing comma, for the same reason.
- Inside `attrs(..)` an attribute is one token, `Syntax.AttrTok`, that holds an attribute already parsed. So a malformed attribute such as `#[]` or `#[a b]` cannot be written there, and syn's errors for one are not modelled. Only a lone `#` and an inner `#![..]` are modelled as failures of `DeriveConfig.ParseOuterAttrs`.
- Keyword identifiers, raw identifiers and path arguments other than a flag are not distinguished.
- Generic parameters are carried as names only, and `split_for_impl` is not modelled.
- Floating point is not modelled. This covers the `f32`, `f64`, `(f32, f32)` and `(f64, f64)` impls of aspartial/src/lib.rs:50-53, and JSON numbers, which are integers here.
- The `iso8601_timestamp::Timestamp` impl (aspartial/src/lib.rs:87-93) depends on a foreign `to_string` and is not modelled.
- The `AsSerializablePartial` blanket trait only adds bounds and is not modelled.
- Two source lines do not type-check as written, and the model follows what they evidently mean. as_partial.rs:90 calls `v.fields()`, but `syn::Variant` has a `fields` field, not a method; `AsPartialMacro.VariantFields` reads that field. as_partial.rs:120 passes `value.clone()` where `Option<&Value>::unwrap_or` needs a `&Value`; `PartialDecode.DecodeAdjacentlyTaggedAsWritten` reads it as "the content member, else the value itself".
- PartialDecode.DecodeAdjacentlyTagged: when the tag is missing or is not a string, the corrected procedure keeps the generated code's fallback of decoding every variant from the content (or the value). It does not leave every slot empty, which is what a reading of the tag as mandatory would give.
- `usize` is taken to be 64 bits wide in `AsPartialRuntime.InRange`.
- The `newtype` configuration used by one test is rejected by `Config::parse`. It exists nowhere else and is not modelled beyond that rejection.

## Findings

| source | as written | input that shows it | evidently intended | confidence | as-written member | corrected member |
|---|---|---|---|---|---|---|
| aspartial_derive/src/serde_attributes.rs:52-56 | `untagged` is recognised on a fork of the input and never consumed. `parse_args` then rejects the leftover identifier, so `try_from_attr` gives None | `#[serde(untagged)]` on an enum resolves to `ExternallyTagged` | the identifier is consumed and the enum is `Untagged` | high (not executed) | SerdeAttributes.UntaggedAttributeIgnored | SerdeAttributes.UntaggedAttributeHonoured |
| aspartial_derive/src/as_partial.rs:120-125 | the adjacently tagged body replaces the value by its content member before reading the tag, so the outer tag is never seen | `{"variant_tag": "Variant1", "the_content": {"a": 1234, "b": "some string"}}` with two variants of the same payload fills both slots; aspartial/tests/test_derive_tagged_enum.rs:62-63 expects only the first | read the tag from the outer value and decode the content member | high (not executed) | PartialDecode.AdjacentTagReadFromContent | PartialDecode.AdjacentlyTaggedSelectsFirstMatch |

In both cases the rest of the model uses the corrected definition.
`SerdeAttributes.ParseTagParams` consumes `untagged`.
`PartialDecode.DecodeAdjacentlyTagged` reads the tag from the outer value.
The code as written is kept beside them:

- `SerdeAttributes.ParseTagParamsAsWritten` and `SerdeAttributes.TagParamsTryFromAttrAsWritten`;
- `PartialDecode.DecodeAdjacentlyTaggedAsWritten`.

The lemmas above exhibit the difference on the inputs named.
