# Meta-service errors and the `<` comparison kernel, in Dafny

This project models two small, pure pieces of a distributed query engine's
code base and proves properties of them.

- **The meta service's error taxonomy** (module `MetaErrors`, file
  `meta_errors.dfy`). `MetaError` is a closed sum type with eleven variants,
  each with a fixed rendering (its `Display` text). Total conversions link it
  to other types:
  - from an application `ErrorCode` into `MetaError`;
  - from `MetaError` back into `ErrorCode`;
  - from a JSON decode failure into `MetaError`;
  - from a UTF-8 decode failure into `MetaError`.

  Two of its variants carry payload types defined in this file: `ConnectionError`, built by
  `ConnectionError::new`, and `ForwardToLeader`, whose leader is optional.
  Two narrower error types sit beside it:
  - `RetryableError`, whose `ForwardToLeader` always names a leader;
  - `ShutdownError`, the signal that shuts the node down.
- **The `<` kernel of the expression engine** (module `ComparisonLt`, file
  `comparison_lt.dfy`). It covers:
  - `eval_primitive` on integer types, which casts both operands to a common type;
  - `eval_binary` on byte strings;
  - the column kernels for primitive and boolean columns, in the shapes
    vector/vector, vector/constant and constant/vector.

  A column is a sequence of its values.

Module `Primitives` (file `primitives.dfy`) holds what both use:
- the fixed-width unsigned integers;
- `Option`;
- Rust's `{}` rendering of an unsigned integer, proved to parse back to the
  number it renders (`DecimalRoundTrip`);
- the `{:?}` rendering of an `Option<u64>`.

Assumptions:
- `ErrorCode` and `SerializedError` come from common_exception, which is not
  part of this model. Both are reduced to a numeric code and a message.
  `SerializedError` is taken to carry both without loss.
- The code of `ErrorCode::MetaServiceError` is the constant
  `MetaServiceErrorCode`. No property depends on its value.
- The transport error, `AnyError`, the consensus library's
  `ChangeMembershipError` and `serde_json::Error` are each modelled by their
  rendered text.
- A UTF-8 failure renders as the standard library's `Utf8Error` does.
- The shared column kernels live outside the modelled file:
  `CommonPrimitiveImpl::compare_op` and `compare_op_scalar`,
  `CommonBooleanImpl::compare_op` and `compare_op_scalar`, and
  `BooleanSimdGt::vector_const`. Each is assumed to be an elementwise map
  that keeps the column's length. `CompareOp`, `CompareOpScalar` and
  `BooleanGtVectorConst` state that assumption as their definition.
  `CompareOp` requires both columns to have the same length.

## Model

| member | source | states |
|---|---|---|
| `Primitives.Decimal` | common/meta/types/src/meta_errors.rs:58-59 | Rust's `{}` of an unsigned integer: at least one decimal digit, no leading zero unless the number is 0 |
| `Primitives.DebugOptionU64` | common/meta/types/src/meta_errors.rs:128-130 | Rust's `{:?}` of an `Option<u64>`: exactly `None` for no value, otherwise `Some(`, the decimal value, `)` |
| `MetaErrors.RenderMetaError` | common/meta/types/src/meta_errors.rs:39-72 | the `Display` of each variant: transparent variants show their inner error; the message variants show their message; `MetaStoreAlreadyExists` is the fixed prefix, decimal digits and the fixed suffix; `MetaStoreNotFound` is its fixed text; `SerdeJsonError` is `serde_json error: ` followed by its message |
| `MetaErrors.RenderConnectionError` | common/meta/types/src/meta_errors.rs:106-112 | `ConnectionError: `, then the message, ` source: ` and the cause's text |
| `MetaErrors.RenderForwardToLeader` | common/meta/types/src/meta_errors.rs:127-131 | `ForwardToLeader: ` followed by the leader's `{:?}`; the text is `ForwardToLeader: None` exactly when no leader is known |
| `MetaErrors.RenderInvalidMembership` | common/meta/types/src/meta_errors.rs:123-125 | the text `InvalidMembership` |
| `MetaErrors.RenderRetryableError` | common/meta/types/src/meta_errors.rs:133-139 | `request must be forwarded to leader: ` followed by a non-empty run of decimal digits |
| `MetaErrors.RenderShutdownError` | common/meta/types/src/meta_errors.rs:141-146 | the text `unsafe storage error` |
| `MetaErrors.SerializeErrorCode` | common/meta/types/src/meta_errors.rs:78 | the serialized carrier keeps the error's code and message |
| `MetaErrors.DeserializeErrorCode` | common/meta/types/src/meta_errors.rs:85 | rebuilding an `ErrorCode` from the carrier restores its code and message |
| `MetaErrors.FromErrorCode` | common/meta/types/src/meta_errors.rs:76-80 | an application error always becomes the `ErrorCode` variant, with the same code and message |
| `MetaErrors.ToErrorCode` | common/meta/types/src/meta_errors.rs:82-88 | total over all eleven variants; `ErrorCode` unwraps to its code and message; every other variant becomes `MetaServiceError` with the variant's rendered text |
| `MetaErrors.FromJsonError` | common/meta/types/src/meta_errors.rs:91-95 | a JSON failure becomes `SerdeJsonError` holding the cause's text and renders as `serde_json error: ` followed by that text |
| `MetaErrors.FromUtf8` | common/meta/types/src/meta_errors.rs:97-104 | a UTF-8 failure always becomes `BadBytes`, rendering as `Bad bytes, cannot parse bytes with UTF8, cause: ` followed by the cause's text |
| `MetaErrors.NewConnectionError` | common/meta/types/src/meta_errors.rs:106-121 | keeps `msg`, type-erases the transport cause, and renders as `ConnectionError: <msg> source: <cause>` |
| `MetaErrors.ErrorCodeRoundTrip` | common/meta/types/src/meta_errors.rs:76-88 | an `ErrorCode` converted into `MetaError` and back is unchanged |
| `MetaErrors.WrappedErrorCodeRoundTrip` | common/meta/types/src/meta_errors.rs:76-88 | an `ErrorCode` variant converted into `ErrorCode` and back is unchanged |
| `MetaErrors.NonErrorCodeCollapses` | common/meta/types/src/meta_errors.rs:82-88 | every non-`ErrorCode` variant becomes `MetaServiceError(rendered text)`; converting back gives the `ErrorCode` variant, not the original |
| `MetaErrors.ToErrorCodeNotInjective` | common/meta/types/src/meta_errors.rs:82-88 | the collapse loses information: `UnknownError(s)`, `InvalidConfig(s)`, `MetaStoreDamaged(s)` and `BadBytes(s)` give the same `ErrorCode`, and `SerdeJsonError(s)` gives the same one as `UnknownError("serde_json error: " + s)` |
| `MetaErrors.Utf8FailureMessage` | common/meta/types/src/meta_errors.rs:82-104 | a UTF-8 failure reaches the application as `MetaServiceError` whose message is the fixed prefix plus the cause; the cause is exactly what follows the prefix |
| `MetaErrors.JsonFailureMessage` | common/meta/types/src/meta_errors.rs:82-95 | a JSON failure reaches the application as `MetaServiceError` whose message is `serde_json error: ` plus the cause |
| `MetaErrors.StoreLifecycleRenderings` | common/meta/types/src/meta_errors.rs:58-62 | `MetaStoreNotFound` renders as `raft state absent, can not open`; `MetaStoreAlreadyExists(id)` renders as `raft state present id=`, the decimal id, then `, can not create`, and the id reads back from the text |
| `MetaErrors.AlreadyExistsDistinguishesIds` | common/meta/types/src/meta_errors.rs:58-59 | different store ids give different `MetaStoreAlreadyExists` texts |
| `MetaErrors.TransparentRenderings` | common/meta/types/src/meta_errors.rs:40-50 | `ForwardToLeader`, `ChangeMembershipError` and `ConnectionError` reach the application with exactly their inner error's text |
| `MetaErrors.ForwardToLeaderRendering` | common/meta/types/src/meta_errors.rs:127-131 | with no leader the text is `ForwardToLeader: None`; with a leader it is `ForwardToLeader: Some(` + digits + `)`, the digits read back as the leader id, and the text differs from the no-leader text |
| `MetaErrors.RetryableNamesLeader` | common/meta/types/src/meta_errors.rs:133-139 | a `RetryableError::ForwardToLeader` always names a concrete leader: its text is `request must be forwarded to leader: ` followed by digits that read back as the leader id |
| `MetaErrors.RetryableDistinguishesLeaders` | common/meta/types/src/meta_errors.rs:133-139 | retryable errors for different leaders render differently |
| `MetaErrors.ShutdownRendering` | common/meta/types/src/meta_errors.rs:141-146 | the shutdown signal renders as `unsafe storage error`, a text that neither `MetaStoreNotFound` nor any `MetaStoreAlreadyExists(id)` has |
| `ComparisonLt.AsCast` | common/functions/src/scalars/comparisons/comparison_lt.rs:42 | Rust's integer `as` gives a value the target type holds, with the same remainder as the input modulo 2 to the power of the target's width |
| `ComparisonLt.EvalPrimitive` | common/functions/src/scalars/comparisons/comparison_lt.rs:36-43 | casts both operands to the common type and compares there; when that type holds both values the result is `l < r` |
| `ComparisonLt.EvalPrimitiveUnderSupertype` | common/functions/src/scalars/comparisons/comparison_lt.rs:36-43 | when the common type can represent every value of both operand types, `eval_primitive` equals `<` for all inputs |
| `ComparisonLt.EvalPrimitiveNeedsCommonType` | common/functions/src/scalars/comparisons/comparison_lt.rs:36-43 | without that condition the result can differ from `<`: `1 < 256` evaluated in `u8` is false |
| `ComparisonLt.EvalBinary` | common/functions/src/scalars/comparisons/comparison_lt.rs:45-47 | Rust's `<` on byte slices; when it holds, the two slices differ and the right one is not empty |
| `ComparisonLt.EvalBinaryIsLexicographic` | common/functions/src/scalars/comparisons/comparison_lt.rs:45-47 | `eval_binary(l, r)` holds exactly when `l` is a proper prefix of `r`, or the two agree up to a position where `l` has the smaller byte |
| `ComparisonLt.EvalBinaryIrreflexive` | common/functions/src/scalars/comparisons/comparison_lt.rs:45-47 | no byte string is less than itself |
| `ComparisonLt.EvalBinaryAsymmetric` | common/functions/src/scalars/comparisons/comparison_lt.rs:45-47 | `l < r` excludes `r < l` |
| `ComparisonLt.EvalBinaryTransitive` | common/functions/src/scalars/comparisons/comparison_lt.rs:45-47 | `a < b` and `b < c` give `a < c` |
| `ComparisonLt.EvalBinaryConnected` | common/functions/src/scalars/comparisons/comparison_lt.rs:45-47 | any two different byte strings are ordered one way or the other |
| `ComparisonLt.EvalBinaryProperPrefix` | common/functions/src/scalars/comparisons/comparison_lt.rs:45-47 | a proper prefix is less than any extension of it |
| `ComparisonLt.CompareOp` | common/functions/src/scalars/comparisons/comparison_lt.rs:59 | assumed kernel: applies the closure at each index of two equal-length columns and keeps the length |
| `ComparisonLt.CompareOpScalar` | common/functions/src/scalars/comparisons/comparison_lt.rs:67 | assumed kernel: applies the closure to each element and the scalar, and keeps the length |
| `ComparisonLt.NewZeroed` | common/functions/src/scalars/comparisons/comparison_lt.rs:91 | a column of the given length that is false everywhere |
| `ComparisonLt.PrimitiveVectorVector` | common/functions/src/scalars/comparisons/comparison_lt.rs:54-60 | same length as the inputs, and `out[i] == (lhs[i] < rhs[i])` |
| `ComparisonLt.PrimitiveVectorConst` | common/functions/src/scalars/comparisons/comparison_lt.rs:62-68 | same length as `lhs`, and `out[i] == (lhs[i] < c)` |
| `ComparisonLt.PrimitiveConstVector` | common/functions/src/scalars/comparisons/comparison_lt.rs:70-76 | swapping the operands and asking `>` gives `out[i] == (c < rhs[i])`, with the length of `rhs` |
| `ComparisonLt.PrimitiveShapesAgree` | common/functions/src/scalars/comparisons/comparison_lt.rs:54-76 | both constant shapes equal vector/vector against a column that repeats the constant |
| `ComparisonLt.BoolLtStrictOrder` | common/functions/src/scalars/comparisons/comparison_lt.rs:84 | `false < true` is irreflexive, asymmetric, transitive and total on distinct values |
| `ComparisonLt.BooleanGtVectorConst` | common/functions/src/scalars/comparisons/comparison_lt.rs:96 | assumed `>` kernel: `out[i] == (c < lhs[i])`, with the length of `lhs` |
| `ComparisonLt.BooleanVectorVector` | common/functions/src/scalars/comparisons/comparison_lt.rs:83-85 | same length; at each index `!a & b` is `a < b` in the `false < true` order |
| `ComparisonLt.BooleanVectorConst` | common/functions/src/scalars/comparisons/comparison_lt.rs:87-93 | same length as `lhs` and `out[i] == (lhs[i] < c)`; against `true` it is the negated column; against `false` the zeroed column is all false |
| `ComparisonLt.BooleanConstVector` | common/functions/src/scalars/comparisons/comparison_lt.rs:95-97 | through the `>` kernel with the operands swapped, `out[i] == (c < rhs[i])`, with the length of `rhs` |
| `ComparisonLt.BooleanShapesAgree` | common/functions/src/scalars/comparisons/comparison_lt.rs:82-98 | both constant shapes equal vector/vector against a column that repeats the constant |

## Left out

- Serialization of errors (the serde `Serialize`/`Deserialize` derives): foreign derive code. The round trip of a `MetaError` through its serialized form is not modelled.
- The `thiserror` machinery: renderings are written out as functions such as `RenderMetaError` and `RenderForwardToLeader`. The `#[source]` chain of `ConnectionError` is not modelled.
- `SerializedError`'s own `Display` format belongs to common_exception, which is not part of this model. `RenderSerializedError` renders it as its message. Only the `ErrorCode` clause of `RenderMetaError`'s contract depends on this; no conversion and no lemma does.
- The backtrace and cause chain an `ErrorCode` may carry are dropped. Only the code and message are modelled, and the round trip is stated for those.
- `MetaErrors.NewConnectionError`: `AnyError::new` and `AnyError`'s own `Display` belong to the anyerror crate, which is not part of this model. They may add the cause's type name and source chain. The model keeps and shows only the cause's rendered text, so the `source: <cause>` part is stated for that text.
- The value of `ErrorCode::MetaServiceError`'s numeric code is defined in common_exception, which is not part of this model.
- `InvalidMembership` (meta_errors.rs:123-125) is modelled with its rendering only. No conversion uses it.
- SIMD lanes (`Simd8`, `Simd8PartialOrd`), arrow's `Bitmap` bit packing and `EvalContext` are performance plumbing and library types. Columns are sequences, and the unused context argument is dropped.
- Null (validity) masks of columns are not part of the modelled file.
- Float instantiations of `eval_primitive` and `PrimitiveSimdLt` are left out: NaN and partial ordering are floating-point numerics. Only integer element types are modelled.
- Primitive columns are `seq<int>`. The model does not track that each element lies in the column type's range; a comparison of two in-range values is the same `<` either way.
- The generic `ComparisonImpl` / `ComparisonFunctionCreator` framework is not part of this model. That framework picks the common type `M` and dispatches to these kernels.
- Leader-retry routing, the replicated state machine, storage open/create, the shutdown supervisor and the consensus library are left out. None of them is implemented in the modelled files.
