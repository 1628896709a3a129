/** Code trees, code words and the serial form of a tree, as functions on bit strings: what encode.c writes and
    what decode.c reads, and that the two agree. A 1 bit turns left. */
module HuffTree {
  import opened Bytes

  datatype Tree<T> = Leaf(c: T) | Node(left: Tree<T>, right: Tree<T>)

  function Leaves<T>(t: Tree<T>): (s: seq<T>)
    ensures s != []
  {
    match t
    case Leaf(c) => [c]
    case Node(l, r) => Leaves(l) + Leaves(r)
  }

  ghost predicate Distinct<T(!new)>(s: seq<T>) {
    forall i, j :: 0 <= i < j < |s| ==> s[i] != s[j]
  }

  lemma DistinctParts<T(!new)>(a: seq<T>, b: seq<T>)
    requires Distinct(a + b)
    ensures Distinct(a) && Distinct(b) && forall x :: x in a ==> x !in b
  {
    var s := a + b;
    forall i, j | 0 <= i < j < |a| ensures a[i] != a[j] { assert s[i] != s[j]; }
    forall i, j | 0 <= i < j < |b| ensures b[i] != b[j] { assert s[|a| + i] != s[|a| + j]; }
    forall i, j | 0 <= i < |a| && 0 <= j < |b| ensures a[i] != b[j] { assert s[i] != s[|a| + j]; }
  }

  function Height<T>(t: Tree<T>): nat {
    match t
    case Leaf(_) => 0
    case Node(l, r) => 1 + (if Height(l) > Height(r) then Height(l) else Height(r))
  }

  /** A tree of n leaves is less than n high. */
  lemma {:induction false} HeightBound<T>(t: Tree<T>)
    ensures Height(t) < |Leaves(t)|
  {
    if t.Node? {
      HeightBound(t.left);
      HeightBound(t.right);
    }
  }

  // ---------------------------------------------------------------- code words

  /** The path from the root to the leaf of `c`. */
  function Code(t: Tree<byte>, c: byte): (w: seq<bool>)
    requires c in Leaves(t)
    ensures |w| <= Height(t)
  {
    match t
    case Leaf(_) => []
    case Node(l, r) => if c in Leaves(l) then [true] + Code(l, c) else [false] + Code(r, c)
  }

  /** A character read off a bit string, and what is left of the string. */
  function Decode1(t: Tree<byte>, bits: seq<bool>): (r: Option<(byte, seq<bool>)>)
    ensures r.Some? ==> |r.value.1| <= |bits|
  {
    match t
    case Leaf(c) => Some((c, bits))
    case Node(l, r) => if bits == [] then None else Decode1(if bits[0] then l else r, bits[1..])
  }

  lemma {:induction false} DecodeCode(t: Tree<byte>, c: byte, rest: seq<bool>)
    requires c in Leaves(t)
    ensures Decode1(t, Code(t, c) + rest) == Some((c, rest))
  {
    match t
    case Leaf(_) =>
      assert [] + rest == rest;
    case Node(l, r) =>
      var t' := if c in Leaves(l) then l else r;
      DecodeCode(t', c, rest);
      assert (Code(t, c) + rest)[1..] == Code(t', c) + rest;
  }

  /** All characters of `s` occur in the tree. */
  ghost predicate Covers(t: Tree<byte>, s: seq<byte>) {
    forall c :: c in s ==> c in Leaves(t)
  }

  function Encode(t: Tree<byte>, s: seq<byte>): seq<bool>
    requires Covers(t, s)
  {
    if s == [] then [] else Code(t, s[0]) + Encode(t, s[1..])
  }

  lemma {:induction false} EncodeMore(t: Tree<byte>, s: seq<byte>, c: byte)
    requires Covers(t, s + [c])
    ensures Encode(t, s + [c]) == Encode(t, s) + Code(t, c)
  {
    if s == [] {
      assert (s + [c])[1..] == [];
    } else {
      assert (s + [c])[1..] == s[1..] + [c];
      assert (s + [c])[0] == s[0];
      EncodeMore(t, s[1..], c);
    }
  }

  /** `n` characters read off a bit string. */
  function DecodeN(t: Tree<byte>, bits: seq<bool>, n: nat): (r: Option<seq<byte>>)
    ensures r.Some? ==> |r.value| == n
    decreases n
  {
    if n == 0 then Some([]) else
      match Decode1(t, bits)
      case None => None
      case Some((c, rest)) =>
        match DecodeN(t, rest, n - 1)
        case None => None
        case Some(s) => Some([c] + s)
  }

  /** Decoding undoes encoding, whatever bits come after. */
  lemma {:induction false} DecodeEncode(t: Tree<byte>, s: seq<byte>, rest: seq<bool>)
    requires Covers(t, s)
    ensures DecodeN(t, Encode(t, s) + rest, |s|) == Some(s)
  {
    if s == [] {
      assert [] + rest == rest;
    } else {
      var more := Encode(t, s[1..]) + rest;
      assert Encode(t, s) + rest == Code(t, s[0]) + more;
      DecodeCode(t, s[0], more);
      DecodeEncode(t, s[1..], rest);
      assert s == [s[0]] + s[1..];
    }
  }

  /** Characters up to a NUL read off a bit string, if there are fewer than `room` with it. */
  function DecodeName(t: Tree<byte>, bits: seq<bool>, room: nat): Option<seq<byte>>
    decreases room
  {
    if room == 0 then None else
      match Decode1(t, bits)
      case None => None
      case Some((c, rest)) =>
        if c == 0 then Some([]) else
          match DecodeName(t, rest, room - 1)
          case None => None
          case Some(s) => Some([c] + s)
  }

  lemma {:induction false} DecodeNameEncode(t: Tree<byte>, s: seq<byte>, rest: seq<bool>, room: nat)
    requires Covers(t, s + [0]) && 0 !in s && |s| < room
    ensures DecodeName(t, Encode(t, s + [0]) + rest, room) == Some(s)
  {
    var z := s + [0];
    var more := Encode(t, z[1..]) + rest;
    assert Encode(t, z) + rest == Code(t, z[0]) + more;
    DecodeCode(t, z[0], more);
    if s != [] {
      assert z[1..] == s[1..] + [0];
      DecodeNameEncode(t, s[1..], rest, room - 1);
      assert z[0] == s[0] && s == [s[0]] + s[1..];
    }
  }

  // ---------------------------------------------------------------- the tree itself as bits

  /** What walk_tree writes: nothing for a leaf. */
  function Walk<T>(t: Tree<T>): seq<bool> {
    match t
    case Leaf(_) => []
    case Node(l, r) => [true] + Walk(l) + [false] + Walk(r)
  }

  /** What get_tree reads: a 0 for a leaf. */
  function Serial<T>(t: Tree<T>): (w: seq<bool>)
    ensures |w| == 2 * |Leaves(t)| - 1
  {
    match t
    case Leaf(_) => [false]
    case Node(l, r) => [true] + Serial(l) + Serial(r)
  }

  lemma Regrouped(a: seq<bool>, b: seq<bool>)
    ensures [true] + a + [false] + b + [false] == [true] + (a + [false]) + (b + [false])
  {
  }

  lemma SerialSplit(a: seq<bool>, b: seq<bool>, rest: seq<bool>)
    ensures [true] + a + b + rest == [true] + (a + (b + rest))
  {
  }

  /** The characters of `cl` from number `k` on are those of `s`. */
  ghost predicate From(cl: seq<byte>, k: nat, s: seq<byte>) {
    k + |s| <= |cl| && forall i :: 0 <= i < |s| ==> cl[k + i] == s[i]
  }

  lemma FromParts(cl: seq<byte>, k: nat, a: seq<byte>, b: seq<byte>)
    requires From(cl, k, a + b)
    ensures From(cl, k, a) && From(cl, k + |a|, b)
  {
    forall i | 0 <= i < |a| ensures cl[k + i] == a[i] { assert (a + b)[i] == a[i]; }
    forall i | 0 <= i < |b| ensures cl[k + |a| + i] == b[i] {
      assert (a + b)[|a| + i] == b[i];
      assert cl[k + (|a| + i)] == (a + b)[|a| + i];
    }
  }

  /** One more 0 makes the first into the second. */
  lemma {:induction false} WalkSafeguard<T>(t: Tree<T>)
    ensures Walk(t) + [false] == Serial(t)
  {
    if t.Node? {
      WalkSafeguard(t.left);
      WalkSafeguard(t.right);
      Regrouped(Walk(t.left), Walk(t.right));
    }
  }

  /** A tree, the bits after it, and the number of characters taken so far. */
  datatype Parsed = Parsed(tree: Tree<byte>, rest: seq<bool>, next: nat)

  /** get_tree: the leaves take the characters of `cl` in order from number `k`. It fails at the end of the bits;
      to take more characters than `cl` has is undefined in C and a failure here. */
  function Parse(bits: seq<bool>, cl: seq<byte>, k: nat): (r: Option<Parsed>)
    ensures r.Some? ==> |r.value.rest| < |bits|
    decreases |bits|
  {
    if bits == [] then None
    else if bits[0] then
      match Parse(bits[1..], cl, k)
      case None => None
      case Some(Parsed(l, rest, k')) =>
        match Parse(rest, cl, k')
        case None => None
        case Some(Parsed(r, rest', k'')) => Some(Parsed(Node(l, r), rest', k''))
    else if k < |cl| then Some(Parsed(Leaf(cl[k]), bits[1..], k + 1))
    else None
  }

  /** Reading undoes writing. */
  lemma {:induction false} ParseSerial(t: Tree<byte>, rest: seq<bool>, cl: seq<byte>, k: nat)
    requires From(cl, k, Leaves(t))
    ensures Parse(Serial(t) + rest, cl, k) == Some(Parsed(t, rest, k + |Leaves(t)|))
    decreases t
  {
    hide From;
    match t
    case Leaf(c) =>
      FromHead(cl, k, c);
      assert ([false] + rest)[1..] == rest;
    case Node(l, r) =>
      FromParts(cl, k, Leaves(l), Leaves(r));
      ParseSerial(l, Serial(r) + rest, cl, k);
      ParseSerial(r, rest, cl, k + |Leaves(l)|);
      SerialSplit(Serial(l), Serial(r), rest);
      var more := Serial(l) + (Serial(r) + rest);
      assert ([true] + more)[1..] == more;
  }

  lemma FromHead(cl: seq<byte>, k: nat, c: byte)
    requires From(cl, k, [c])
    ensures k < |cl| && cl[k] == c
  {
    var s := [c];
    assert From(cl, k, s) && s[0] == c;
  }
}
