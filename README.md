# ArrayVect: a verified model of the integer-vector utility of the ray tracer

This project models `ArrayVect`, the flat integer-vector type of the ray
tracer's `src/ray.rs`. An `ArrayVect` wraps a `Vec<i32>`. Two constructors pack
their arguments in order: `array3` takes three values and `array6` takes six.
Two operations build a fresh vector from two existing ones: `concat` takes its
second operand by value, and `concatRef` borrows it. Each clones the receiver's
vector and the other vector. It then moves every element of the second clone
onto the end of the first with `Vec::append`, which leaves the second clone
empty.

Everything lives in module `Ray` in `ray.dfy`:

- `i32` is a newtype over the 32-bit two's complement range.
- `ArrayVect` is a datatype over `seq<i32>`. No operation of the source ever
  changes an existing `ArrayVect`, so it is a value.
- `Array3` and `Array6` are functions, because the source builds them as literals.
- `Concat` and `ConcatRef` are methods that copy the operands and call
  `Append`. `Append` is a loop that moves the elements of the second vector one
  at a time, then returns the grown vector and the drained one.
- The unit tests and the acceptance scenario of the source are stated as
  lemmas and client methods.

The source declares the two concatenations separately with identical bodies,
and the model does the same.

## Model

| member | source | states |
|---|---|---|
| `Ray.Array3` | src/ray.rs:8-12 | builds the literal `[x, y, z]` of `array3`; its contract is stated by `Ray.Array3Characterized` |
| `Ray.Array6` | src/ray.rs:13-17 | builds the literal `[x1, y1, z1, x2, y2, z2]` of `array6`; its contract is stated by `Ray.Array6Characterized` |
| `Ray.Array3Characterized` | src/ray.rs:8-12 | a vector equals `array3(x, y, z)` exactly when it has three elements, and they are `x`, `y`, `z` in argument order (both directions) |
| `Ray.Array6Characterized` | src/ray.rs:13-17 | a vector equals `array6(x1, y1, z1, x2, y2, z2)` exactly when it has six elements, and they are the arguments in argument order (both directions) |
| `Ray.Append` | src/ray.rs:19-21 | `Vec::append` leaves the first vector holding its old elements followed by all of the second's, in order, so the length is the sum of the two lengths; the second vector is left empty |
| `Ray.Concat` | src/ray.rs:18-25 | the result's elements are `self`'s followed by `other`'s, in order; so its length is the sum of the lengths, every element of `self` keeps its index and every element of `other` is shifted by `self`'s length |
| `Ray.ConcatRef` | src/ray.rs:26-33 | the same result as `concat`, with `other` borrowed; the operands are values, so neither is changed |
| `Ray.ConcatAgreesWithConcatRef` | src/ray.rs:18-33 | `concat` and `concatRef` return equal vectors for every pair of operands, namely the concatenation of their element sequences |
| `Ray.Array3ThenArray3IsArray6` | src/ray.rs:8-17 | the elements of `array3(a, b, c)` followed by those of `array3(d, e, f)` are the elements of `array6(a, b, c, d, e, f)` |
| `Ray.ConcatScenario` | tests/cucumber.rs:97-114 | the acceptance scenario: building two vectors with `array3` and joining them with `concatRef` gives the `array6` of the same six values, for all values |
| `Ray.CreateArrayFromNew` | src/ray.rs:41-48 | the unit test: `array3(1, 2, 3)` holds `[1, 2, 3]` |
| `Ray.ConcatenateArray` | src/ray.rs:50-58 | the unit test: `array3(1, 2, 3).concat(array3(3, 4, 5))` holds `[1, 2, 3, 3, 4, 5]` |

## Left out

- Ownership: `concat` consumes `other` and `concatRef` only borrows it. Dafny values have no ownership, so the model cannot show the difference. What it keeps is that both produce the same elements and change neither operand.
- Heap layout: the clones and the reallocation that `Vec::append` may do are modelled as sequence values, so aliasing and capacity are not modelled.
- `Ray.Append`: does not model the panic that `Vec::append` raises when the combined capacity would overflow `isize`. The model's sequences are unbounded.
- The `Tuple` point/vector algebra (`Tuple`, `point3`, `vector3`, `add`, `sub`, `neg`, `isPoint`, `isVector`) is exercised by `tests/cucumber.rs`, but its definition is not part of this model. It is also 32-bit floating-point arithmetic.
- `src/projectile.rs` (`ticks`, `launch`, `trace_trajectory`): explicit-Euler integration over `f32` on the unmodelled `Tuple` type. Its loop has no iteration bound, and the rest is printing.
- `src/main.rs`: the program entry point, which only prints and calls `launch`.
- `tests/cucumber.rs` harness machinery: regex step matching, the scenario world's `HashMap`, and the `f32` literal helper `floatValueFrom`. Only its `ArrayVect` scenario is modelled, as `Ray.ConcatScenario`.
