/** A model of the `ArrayVect` integer-vector utility of src/ray.rs.

    An `ArrayVect` owns a growable vector of 32-bit signed integers. It is
    built from three or six integers (`array3`, `array6`) and two of them are
    joined into a fresh one by `concat` (which consumes its second operand) or
    `concatRef` (which borrows it). No operation ever changes an existing
    `ArrayVect`, so it is modelled as a value. The two concatenations work
    step by step: they clone the receiver's vector, clone the other vector,
    and move every element of the second clone onto the end of the first
    (`Vec::append`), which leaves the second clone empty.
 */
module Ray {

  /** The element type `i32`: the 32-bit two's complement range. The source
      does no arithmetic on elements, so only the range matters. */
  newtype i32 = x: int | -0x8000_0000 <= x < 0x8000_0000

  /** The struct `ArrayVect { elts: Vec<i32> }`. */
  datatype ArrayVect = ArrayVect(elts: seq<i32>)

  /** `ArrayVect::array3`: a vector holding its three arguments in order. */
  function Array3(x: i32, y: i32, z: i32): ArrayVect
  {
    ArrayVect([x, y, z])
  }

  /** `ArrayVect::array6`: a vector holding its six arguments in order. */
  function Array6(x1: i32, y1: i32, z1: i32, x2: i32, y2: i32, z2: i32): ArrayVect
  {
    ArrayVect([x1, y1, z1, x2, y2, z2])
  }

  /** `array3` builds exactly the vectors of length three: a vector equals
      `Array3(x, y, z)` if and only if it has three elements, which are
      `x`, `y` and `z` in that order. */
  lemma Array3Characterized(v: ArrayVect, x: i32, y: i32, z: i32)
    ensures v == Array3(x, y, z) <==>
              |v.elts| == 3 && v.elts[0] == x && v.elts[1] == y && v.elts[2] == z
  {
  }

  /** `array6` builds exactly the vectors of length six, holding the six
      arguments in argument order. */
  lemma Array6Characterized(v: ArrayVect, x1: i32, y1: i32, z1: i32, x2: i32, y2: i32, z2: i32)
    ensures v == Array6(x1, y1, z1, x2, y2, z2) <==>
              |v.elts| == 6 &&
              v.elts[0] == x1 && v.elts[1] == y1 && v.elts[2] == z1 &&
              v.elts[3] == x2 && v.elts[4] == y2 && v.elts[5] == z2
  {
  }

  /** The element sequence of two triples laid end to end is the element
      sequence of the six-element vector of the same values. */
  lemma Array3ThenArray3IsArray6(x1: i32, y1: i32, z1: i32, x2: i32, y2: i32, z2: i32)
    ensures Array3(x1, y1, z1).elts + Array3(x2, y2, z2).elts == Array6(x1, y1, z1, x2, y2, z2).elts
  {
  }

  /** `Vec::append(&mut vec, &mut other)`: moves every element of `other`, in
      order, onto the end of `vec`, and leaves `other` empty. The vector
      passed by mutable reference is modelled as the pair (`grown`,
      `drained`) of its new contents. */
  method Append(vec: seq<i32>, other: seq<i32>) returns (grown: seq<i32>, drained: seq<i32>)
    ensures |grown| == |vec| + |other|
    ensures grown == vec + other
    ensures drained == []
  {
    grown, drained := vec, other;
    while drained != []
      invariant grown + drained == vec + other
      decreases |drained|
    {
      grown, drained := grown + [drained[0]], drained[1..];
    }
  }

  /** `ArrayVect::concat`: a fresh vector holding the receiver's elements
      followed by those of `other`, which is taken by value. */
  method Concat(self: ArrayVect, other: ArrayVect) returns (r: ArrayVect)
    ensures r.elts == self.elts + other.elts
  {
    var vec := self.elts;        // self.elts.clone()
    var vec2 := other.elts;      // other.elts.clone()
    vec, vec2 := Append(vec, vec2);
    r := ArrayVect(vec);
  }

  /** `ArrayVect::concatRef`: the same result as `concat`, with `other`
      borrowed instead of consumed. Both operands are values, so neither is
      changed; only the clones are grown and drained. */
  method ConcatRef(self: ArrayVect, other: ArrayVect) returns (r: ArrayVect)
    ensures r.elts == self.elts + other.elts
  {
    var vec := self.elts;        // self.elts.clone()
    var vec2 := other.elts;      // other.elts.clone()
    vec, vec2 := Append(vec, vec2);
    r := ArrayVect(vec);
  }

  /** Consuming and borrowing concatenation agree on every pair of operands. */
  method ConcatAgreesWithConcatRef(a: ArrayVect, b: ArrayVect) returns (byValue: ArrayVect, byRef: ArrayVect)
    ensures byValue == byRef
    ensures byValue.elts == a.elts + b.elts
  {
    byValue := Concat(a, b);
    byRef := ConcatRef(a, b);
  }

  /** The acceptance scenario: `c <- concat a,b` with `a` and `b` built by
      `array3`, joined through `concatRef`, gives the `array6` of the same
      six values. */
  method ConcatScenario(x1: i32, y1: i32, z1: i32, x2: i32, y2: i32, z2: i32) returns (c: ArrayVect)
    ensures c == Array6(x1, y1, z1, x2, y2, z2)
  {
    var a := Array3(x1, y1, z1);
    var b := Array3(x2, y2, z2);
    c := ConcatRef(a, b);
    Array3ThenArray3IsArray6(x1, y1, z1, x2, y2, z2);
  }

  /** The unit test `ray_can_create_array_from_new`. */
  lemma CreateArrayFromNew()
    ensures Array3(1, 2, 3).elts == [1, 2, 3]
  {
  }

  /** The unit test `ray_can_concatenate_array`. */
  method ConcatenateArray() returns (elts: seq<i32>)
    ensures elts == [1, 2, 3, 3, 4, 5]
  {
    var r := Concat(Array3(1, 2, 3), Array3(3, 4, 5));
    elts := r.elts;
  }
}
