/**
 * The patrolling enemy (Assets/Scripts/Patroller.cs). Its waypoints are
 * child objects named "Patrol Point (k)"; Start numbers them by the k in
 * their names into an array, and every frame the patroller moves toward the
 * current waypoint and, on reaching it, goes on to the next one, wrapping
 * from the last back to the first.
 *
 * The scene's children are given to Start as a sequence of nodes; the
 * frame length is a parameter of Update, and so is the distance to the
 * current waypoint (MoveTowards needs it, and Dafny has no square root).
 */
module Patrol {
  import opened Engine

  /** A child transform: its object's name, an identity and its world position. */
  datatype Node = Node(name: string, id: int, position: Vec3)

  /** The .NET exceptions that can end Start early. */
  datatype PatrolError =
    | SubstringOutOfRange   // String.Substring with a negative length
    | FormatError           // Convert.ToInt32 on text that is not an integer
    | Overflow              // Convert.ToInt32 on an integer outside 32 bits
    | IndexOutOfRange       // storing at an index outside patrolPoints

  datatype Result<T> = Success(value: T) | Failure(error: PatrolError)

  const Prefix: string := "Patrol Point ("

  const Int32Min: int := -0x8000_0000
  const Int32Max: int := 0x7FFF_FFFF

  predicate StartsWith(s: string, prefix: string) {
    |prefix| <= |s| && s[..|prefix|] == prefix
  }

  // Discovery of the waypoints among the children.

  /** The children whose names start with the waypoint prefix, in scan order. */
  function Matching(children: seq<Node>): (points: seq<Node>)
    ensures |points| <= |children|
    ensures forall i :: 0 <= i < |points| ==> StartsWith(points[i].name, Prefix)
    decreases |children|
  {
    if children == [] then []
    else if StartsWith(children[|children| - 1].name, Prefix) then
      Matching(children[..|children| - 1]) + [children[|children| - 1]]
    else Matching(children[..|children| - 1])
  }

  /** Discovery keeps exactly the children with the prefix, and no more of them than there are. */
  lemma {:induction false} MatchingKeepsExactly(children: seq<Node>)
    ensures |Matching(children)| <= |children|
    ensures forall p :: p in Matching(children) <==> p in children && StartsWith(p.name, Prefix)
    decreases |children|
  {
    if children != [] {
      var init := children[..|children| - 1];
      MatchingKeepsExactly(init);
      assert children == init + [children[|children| - 1]];
    }
  }

  // Reading the waypoint number out of a name.

  /** String.IndexOf(char): the first position of c in s, or -1. */
  function IndexOf(s: string, c: char): (i: int)
    ensures -1 <= i < |s|
    ensures i == -1 <==> c !in s
    ensures 0 <= i ==> s[i] == c && c !in s[..i]
    decreases |s|
  {
    if s == [] then -1
    else if s[0] == c then 0
    else
      var j := IndexOf(s[1..], c);
      assert s == [s[0]] + s[1..];
      if j == -1 then -1
      else
        assert s[..j + 1] == [s[0]] + s[1..][..j];
        j + 1
  }

  /** The white space Int32.Parse skips at either end: tab to carriage return, and space. */
  predicate IsWhite(c: char) {
    c == ' ' || '\t' <= c <= '\r'
  }

  predicate IsDigit(c: char) {
    '0' <= c <= '9'
  }

  predicate AllDigits(s: string) {
    forall i :: 0 <= i < |s| ==> IsDigit(s[i])
  }

  function TrimStart(s: string): (t: string)
    ensures t == [] || !IsWhite(t[0])
    ensures |t| <= |s| && t == s[|s| - |t|..]
    // Only white space is removed.
    ensures forall i :: 0 <= i < |s| - |t| ==> IsWhite(s[i])
    decreases |s|
  {
    if s != [] && IsWhite(s[0]) then TrimStart(s[1..]) else s
  }

  function TrimEnd(s: string): (t: string)
    ensures t == [] || !IsWhite(t[|t| - 1])
    ensures |t| <= |s| && t == s[..|t|]
    // Only white space is removed.
    ensures forall i :: |t| <= i < |s| ==> IsWhite(s[i])
    decreases |s|
  {
    if s != [] && IsWhite(s[|s| - 1]) then TrimEnd(s[..|s| - 1]) else s
  }

  /** The value of a run of decimal digits, most significant first. */
  function DecimalValue(ds: string): (v: nat)
    requires AllDigits(ds)
    decreases |ds|
  {
    if ds == [] then 0
    else DecimalValue(ds[..|ds| - 1]) * 10 + (ds[|ds| - 1] as int - '0' as int)
  }

  /** The text without white space at either end. */
  function Trim(s: string): string {
    TrimEnd(TrimStart(s))
  }

  /** The text after a leading sign, if there is one. */
  function Unsigned(t: string): (u: string)
    ensures t != [] && (t[0] == '-' || t[0] == '+') ==> t == [t[0]] + u
    ensures !(t != [] && (t[0] == '-' || t[0] == '+')) ==> u == t
  {
    if t != [] && (t[0] == '-' || t[0] == '+') then t[1..] else t
  }

  /** An integer in the integer style: after trimming and an optional sign, one or more digits. */
  predicate WellFormed(s: string) {
    Unsigned(Trim(s)) != [] && AllDigits(Unsigned(Trim(s)))
  }

  /** The integer a well-formed text denotes: its digits' value, negated after a minus sign. */
  function SignedValue(s: string): int
    requires WellFormed(s)
  {
    var t := Trim(s);
    if t[0] == '-' then -(DecimalValue(Unsigned(t)) as int) else DecimalValue(Unsigned(t))
  }

  /**
   * Convert.ToInt32(string), which is Int32.Parse with the integer style:
   * optional white space, an optional sign, at least one decimal digit,
   * optional white space, and a value that fits in 32 bits.
   */
  function ToInt32(s: string): (r: Result<int>)
    ensures r.Failure? ==> r.error == FormatError || r.error == Overflow
    ensures r == Failure(FormatError) <==> !WellFormed(s)
    ensures WellFormed(s) ==> (r == Failure(Overflow) <==> !(Int32Min <= SignedValue(s) <= Int32Max))
    ensures r.Success? ==> r.value == SignedValue(s) && Int32Min <= r.value <= Int32Max
  {
    var t := TrimEnd(TrimStart(s));
    var negative := |t| > 0 && t[0] == '-';
    var digits := if |t| > 0 && (t[0] == '-' || t[0] == '+') then t[1..] else t;
    if digits == [] || !AllDigits(digits) then Failure(FormatError)
    else
      var v := if negative then 0 - DecimalValue(digits) else DecimalValue(digits);
      if Int32Min <= v <= Int32Max then Success(v) else Failure(Overflow)
  }

  /**
   * The waypoint number of a name: the text from offset 14, the length of
   * the prefix, up to the first ')' is converted to an integer. With no ')'
   * at or after that offset the substring length is negative and
   * Substring throws.
   */
  function SlotOf(name: string): (r: Result<int>)
    ensures r == Failure(SubstringOutOfRange) <==> IndexOf(name, ')') < |Prefix|
    ensures r.Success? ==> Int32Min <= r.value <= Int32Max
  {
    var close := IndexOf(name, ')');
    if close < |Prefix| then Failure(SubstringOutOfRange)
    else ToInt32(name[|Prefix|..close])
  }

  /** The decimal digits of k, most significant first, with no leading zeros. */
  function Decimal(k: nat): (ds: string)
    ensures ds != [] && AllDigits(ds)
    decreases k
  {
    if k < 10 then [('0' as int + k) as char]
    else Decimal(k / 10) + [('0' as int + k % 10) as char]
  }

  lemma {:induction false} DecimalRoundTrip(k: nat)
    ensures DecimalValue(Decimal(k)) == k
    decreases k
  {
    if k >= 10 {
      DecimalRoundTrip(k / 10);
      var ds := Decimal(k);
      assert ds[..|ds| - 1] == Decimal(k / 10);
    }
  }

  /** Int32.Parse reads back the decimal digits of any k in range. */
  lemma ToInt32OfDecimal(k: nat)
    requires k <= Int32Max
    ensures ToInt32(Decimal(k)) == Success(k)
  {
    var ds := Decimal(k);
    DecimalRoundTrip(k);
    NothingToTrim(ds);
    assert IsDigit(ds[0]);
  }

  lemma NothingToTrim(ds: string)
    requires ds != [] && AllDigits(ds)
    ensures TrimStart(ds) == ds && TrimEnd(ds) == ds
  {
    assert IsDigit(ds[0]) && IsDigit(ds[|ds| - 1]);
  }

  /** The first c in a + [c] + b is the one after a, when a has none. */
  lemma IndexOfFirst(a: string, c: char, b: string)
    requires c !in a
    ensures IndexOf(a + [c] + b, c) == |a|
  {
    var s := a + [c] + b;
    var i := IndexOf(s, c);
    assert s[|a|] == c;
  }

  /** Neither the prefix nor a run of digits contains ')'. */
  lemma Unclosed(ds: string)
    requires AllDigits(ds)
    ensures ')' !in Prefix + ds
  {
    forall i | 0 <= i < |Prefix + ds| ensures (Prefix + ds)[i] != ')' {
      if i >= |Prefix| { assert (Prefix + ds)[i] == ds[i - |Prefix|]; }
    }
  }

  /** The name of the waypoint numbered k, followed by anything at all, reads back as k. */
  lemma SlotOfName(k: nat, rest: string)
    requires k <= Int32Max
    ensures SlotOf(Prefix + Decimal(k) + ")" + rest) == Success(k)
  {
    var ds := Decimal(k);
    var name := Prefix + ds + ")" + rest;
    Unclosed(ds);
    assert name == (Prefix + ds) + [')'] + rest;
    IndexOfFirst(Prefix + ds, ')', rest);
    assert name[|Prefix|..|Prefix| + |ds|] == ds;
    ToInt32OfDecimal(k);
  }

  /** A name with the prefix and no ')' fails in Substring, before any conversion. */
  lemma UnclosedName(name: string)
    requires StartsWith(name, Prefix) && ')' !in name
    ensures SlotOf(name) == Failure(SubstringOutOfRange)
  {
  }

  // Filling the waypoint array.

  /** The array after Start's loop, and the exception that ended the loop early, if any. */
  datatype Fill = Fill(slots: seq<Option<Node>>, error: Option<PatrolError>)

  /** The number Start reads from a point's name. */
  function NodeSlot(p: Node): Result<int> {
    SlotOf(p.name)
  }

  /**
   * Start's loop over the discovered points, in order, on an array of n
   * empty slots: each point is stored at its number key(p), and the first
   * point whose number cannot be read or lies outside the array stops the
   * loop. Start reads the numbers with NodeSlot; the properties below hold
   * for any way of numbering the points.
   */
  function Place(n: nat, points: seq<Node>, key: Node -> Result<int>): (f: Fill)
    ensures |f.slots| == n
    decreases |points|
  {
    if points == [] then Fill(seq(n, _ => None), None)
    else
      var prev := Place(n, points[..|points| - 1], key);
      var p := points[|points| - 1];
      if prev.error.Some? then prev
      else match key(p)
        case Failure(e) => Fill(prev.slots, Some(e))
        case Success(k) =>
          if 0 <= k < n then Fill(prev.slots[k := Some(p)], None)
          else Fill(prev.slots, Some(IndexOutOfRange))
  }

  /** Every point has a number, and it is a slot of an array of n. */
  predicate Numbered(n: nat, points: seq<Node>, key: Node -> Result<int>) {
    forall i :: 0 <= i < |points| ==> key(points[i]).Success? && 0 <= key(points[i]).value < n
  }

  /** No two points have the same number. */
  predicate DistinctNumbers(points: seq<Node>, key: Node -> Result<int>) {
    forall i, j :: 0 <= i < j < |points| ==> key(points[i]) != key(points[j])
  }

  /** Once the loop has stopped, later points change nothing. */
  lemma {:induction false} ErrorSticks(n: nat, points: seq<Node>, key: Node -> Result<int>, i: nat)
    requires i <= |points| && Place(n, points[..i], key).error.Some?
    ensures Place(n, points, key) == Place(n, points[..i], key)
    decreases |points| - i
  {
    if i < |points| {
      assert points[..i + 1][..i] == points[..i];
      ErrorSticks(n, points, key, i + 1);
    } else {
      assert points[..i] == points;
    }
  }

  /** The loop runs to the end exactly when every point's number is a slot of the array. */
  lemma {:induction false} PlaceSucceeds(n: nat, points: seq<Node>, key: Node -> Result<int>)
    ensures Place(n, points, key).error == None <==> Numbered(n, points, key)
    decreases |points|
  {
    if points != [] {
      var init := points[..|points| - 1];
      PlaceSucceeds(n, init, key);
      assert forall i :: 0 <= i < |init| ==> init[i] == points[i];
    }
  }

  /**
   * The first point whose number cannot be read, or is not a slot of the
   * array, ends the loop with that exception: the conversion's own error,
   * or an out-of-range index for a number below 0 or at least n. The
   * array keeps what the points before it stored.
   */
  lemma PlaceFirstError(n: nat, points: seq<Node>, key: Node -> Result<int>, i: nat)
    requires i < |points| && Numbered(n, points[..i], key)
    requires !(key(points[i]).Success? && 0 <= key(points[i]).value < n)
    ensures key(points[i]).Failure? ==> Place(n, points, key).error == Some(key(points[i]).error)
    ensures key(points[i]).Success? ==> Place(n, points, key).error == Some(IndexOutOfRange)
    ensures Place(n, points, key).slots == Place(n, points[..i], key).slots
  {
    PlaceSucceeds(n, points[..i], key);
    assert points[..i + 1][..i] == points[..i];
    assert points[..i + 1][i] == points[i];
    ErrorSticks(n, points, key, i + 1);
  }

  /** The last point of a numbered run is stored over what the others left. */
  lemma PlaceLast(n: nat, points: seq<Node>, key: Node -> Result<int>)
    requires Numbered(n, points, key) && points != []
    ensures Numbered(n, points[..|points| - 1], key)
    ensures Place(n, points, key).slots ==
      Place(n, points[..|points| - 1], key).slots[key(points[|points| - 1]).value := Some(points[|points| - 1])]
  {
    var init := points[..|points| - 1];
    assert forall i :: 0 <= i < |init| ==> init[i] == points[i];
    PlaceSucceeds(n, init, key);
  }

  /** With distinct numbers that are slots, each point sits at its number. */
  lemma {:induction false} PlaceAtNumbers(n: nat, points: seq<Node>, key: Node -> Result<int>)
    requires Numbered(n, points, key) && DistinctNumbers(points, key)
    ensures forall i :: 0 <= i < |points| ==> Place(n, points, key).slots[key(points[i]).value] == Some(points[i])
    decreases |points|
  {
    if points != [] {
      var init := points[..|points| - 1];
      PlaceLast(n, points, key);
      assert forall i :: 0 <= i < |init| ==> init[i] == points[i];
      PlaceAtNumbers(n, init, key);
    }
  }

  /** With numbers that are slots, a slot is filled exactly when some point carries its number. */
  lemma {:induction false} PlaceFilled(n: nat, points: seq<Node>, key: Node -> Result<int>)
    requires Numbered(n, points, key)
    ensures forall k :: 0 <= k < n ==>
      (Place(n, points, key).slots[k].Some? <==> exists i :: 0 <= i < |points| && key(points[i]) == Success(k))
    decreases |points|
  {
    if points != [] {
      var init := points[..|points| - 1];
      PlaceLast(n, points, key);
      assert forall i :: 0 <= i < |init| ==> init[i] == points[i];
      PlaceFilled(n, init, key);
      var k := key(points[|points| - 1]).value;
      var slots := Place(n, points, key).slots;
      forall j | 0 <= j < n
        ensures slots[j].Some? <==> exists i :: 0 <= i < |points| && key(points[i]) == Success(j)
      {
        if j != k && slots[j].Some? {
          var i :| 0 <= i < |init| && key(init[i]) == Success(j);
          assert key(points[i]) == Success(j);
        }
      }
    }
  }

  /**
   * When the numbers of the N points are 0 to N-1 in some order, one each,
   * Start fills every slot of the array, each point at its own number.
   */
  lemma PlacePermutation(points: seq<Node>, key: Node -> Result<int>)
    requires Numbered(|points|, points, key) && DistinctNumbers(points, key)
    ensures Place(|points|, points, key).error == None
    ensures forall k :: 0 <= k < |points| ==> Place(|points|, points, key).slots[k].Some?
    ensures forall i :: 0 <= i < |points| ==> Place(|points|, points, key).slots[key(points[i]).value] == Some(points[i])
  {
    var n := |points|;
    PlaceSucceeds(n, points, key);
    PlaceAtNumbers(n, points, key);
    PlaceFilled(n, points, key);
    var numbers := Numbers(points, key);
    forall k | 0 <= k < n ensures Place(n, points, key).slots[k].Some? {
      Pigeonhole(numbers, k);
      var i :| 0 <= i < n && numbers[i] == k;
      assert key(points[i]) == Success(k);
    }
  }

  /** The numbers of the points, in order. */
  function Numbers(points: seq<Node>, key: Node -> Result<int>): (ns: seq<int>)
    requires Numbered(|points|, points, key) && DistinctNumbers(points, key)
    ensures |ns| == |points|
    ensures forall i :: 0 <= i < |points| ==> ns[i] == key(points[i]).value
    ensures forall i :: 0 <= i < |ns| ==> 0 <= ns[i] < |ns|
    ensures forall i, j :: 0 <= i < j < |ns| ==> ns[i] != ns[j]
  {
    seq(|points|, i requires 0 <= i < |points| => key(points[i]).value)
  }

  /** 0, 1, ..., n-1. */
  function Range(n: nat): (r: set<int>)
    ensures forall x :: x in r <==> 0 <= x < n
    ensures |r| == n
    decreases n
  {
    if n == 0 then {} else Range(n - 1) + {n - 1}
  }

  function Image(ns: seq<int>): set<int> {
    set i | 0 <= i < |ns| :: ns[i]
  }

  lemma {:induction false} ImageSize(ns: seq<int>)
    requires forall i, j :: 0 <= i < j < |ns| ==> ns[i] != ns[j]
    ensures |Image(ns)| == |ns|
    decreases |ns|
  {
    if ns != [] {
      var init := ns[..|ns| - 1];
      ImageSize(init);
      assert Image(ns) == Image(init) + {ns[|ns| - 1]};
    }
  }

  /** n distinct numbers below n take every value below n. */
  lemma Pigeonhole(ns: seq<int>, k: int)
    requires forall i :: 0 <= i < |ns| ==> 0 <= ns[i] < |ns|
    requires forall i, j :: 0 <= i < j < |ns| ==> ns[i] != ns[j]
    requires 0 <= k < |ns|
    ensures exists i :: 0 <= i < |ns| && ns[i] == k
  {
    ImageSize(ns);
    var r := Range(|ns|);
    if k !in Image(ns) {
      assert Image(ns) <= r - {k};
      SubsetSize(Image(ns), r - {k});
    }
  }

  lemma SubsetSize(a: set<int>, b: set<int>)
    requires a <= b
    ensures |a| <= |b|
  {
    assert b == a + (b - a);
  }

  // Going round the waypoints.

  /** The index after i: past the last slot of n, back to the first. */
  function NextIndex(i: int, n: int): (next: int)
    ensures 0 <= i < n ==> 0 <= next < n
  {
    if i >= n - 1 then 0 else i + 1
  }

  /** From a slot of the array the next index is the following slot, cyclically. */
  lemma NextIndexWraps(i: int, n: int)
    requires 0 <= i < n
    ensures NextIndex(i, n) == (i + 1) % n
  {
  }

  /** The index after k arrivals starting from i. */
  function Advance(i: int, n: int, k: nat): int
    decreases k
  {
    if k == 0 then i else NextIndex(Advance(i, n, k - 1), n)
  }

  lemma {:induction false} AdvanceSplit(i: int, n: int, a: nat, b: nat)
    ensures Advance(i, n, a + b) == Advance(Advance(i, n, a), n, b)
    decreases b
  {
    if b > 0 {
      AdvanceSplit(i, n, a, b - 1);
    }
  }

  /** Before the end of the array, each arrival moves one slot on. */
  lemma {:induction false} AdvanceCounts(i: int, n: int, k: nat)
    requires 0 <= i && i + k < n
    ensures Advance(i, n, k) == i + k
    decreases k
  {
    if k > 0 {
      AdvanceCounts(i, n, k - 1);
    }
  }

  /** From any waypoint, n arrivals later the patroller heads for the same waypoint again. */
  lemma FullCircuit(i: int, n: int)
    requires 0 <= i < n
    ensures Advance(i, n, n) == i
    ensures forall k: nat :: k < n ==> 0 <= Advance(i, n, k) < n
  {
    AdvanceSplit(i, n, n - i, i);
    AdvanceCounts(i, n, n - i - 1);
    assert Advance(i, n, n - i) == 0;
    AdvanceCounts(0, n, i);
    forall k: nat | k < n ensures 0 <= Advance(i, n, k) < n {
      if i + k < n {
        AdvanceCounts(i, n, k);
      } else {
        AdvanceSplit(i, n, n - i, k - (n - i));
        AdvanceCounts(0, n, k - (n - i));
      }
    }
  }

  /**
   * The loop of Start: store each point at its number in the array of
   * empty slots, stopping at the first point whose number cannot be read or
   * is outside the array (where Start throws).
   */
  method FillSlots(slots: array<Option<Node>>, points: seq<Node>, key: Node -> Result<int>)
    returns (error: Option<PatrolError>)
    requires forall k :: 0 <= k < slots.Length ==> slots[k] == None
    modifies slots
    ensures slots[..] == Place(slots.Length, points, key).slots
    ensures error == Place(slots.Length, points, key).error
  {
    var n := slots.Length;
    assert slots[..] == Place(n, points[..0], key).slots;
    var i := 0;
    while i < |points|
      invariant 0 <= i <= |points|
      invariant Place(n, points[..i], key).error == None
      invariant slots[..] == Place(n, points[..i], key).slots
    {
      assert points[..i + 1][..i] == points[..i];
      var point := points[i];
      var slot := key(point);
      if slot.Failure? {
        ErrorSticks(n, points, key, i + 1);
        return Some(slot.error);
      } else if !(0 <= slot.value < n) {
        ErrorSticks(n, points, key, i + 1);
        return Some(IndexOutOfRange);
      }
      slots[slot.value] := Some(point);
      i := i + 1;
    }
    assert points[..i] == points;
    error := None;
  }

  /** How quickly the model turns toward the waypoint ahead. */
  const RotationSlerpAmount: real := 0.68

  class Patroller {
    /** Units per second; the inspector default is 30. */
    const moveSpeed: real

    /** The root transform's position and the model holder's rotation. */
    var position: Vec3
    var rotation: Rotation

    var currentPointIndex: int
    var currentPoint: Option<Node>
    var patrolPoints: array<Option<Node>>

    /** The current waypoint, when there is one, is the array slot at the current index. */
    ghost predicate Valid()
      reads this, patrolPoints
    {
      currentPoint.Some? ==>
        0 <= currentPointIndex < patrolPoints.Length && patrolPoints[currentPointIndex] == currentPoint
    }

    /** A patroller before Start: no waypoint, so Update does nothing yet. */
    constructor (moveSpeed: real, position: Vec3, rotation: Rotation)
      ensures Valid()
      ensures this.moveSpeed == moveSpeed && this.position == position && this.rotation == rotation
      ensures currentPoint == None && currentPointIndex == 0 && patrolPoints.Length == 0
    {
      this.moveSpeed := moveSpeed;
      this.position := position;
      this.rotation := rotation;
      currentPointIndex := 0;
      currentPoint := None;
      patrolPoints := new Option<Node>[0];
    }

    /** Head for the waypoint in slot index (an empty slot leaves no current waypoint). */
    method SetCurrentPatrolPoint(index: int)
      requires 0 <= index < patrolPoints.Length
      modifies this`currentPointIndex, this`currentPoint
      ensures Valid()
      ensures currentPointIndex == index && currentPoint == patrolPoints[index]
    {
      currentPointIndex := index;
      currentPoint := patrolPoints[index];
    }

    /** The children whose names start with "Patrol Point (", in the order given. */
    method GetUnsortedPatrolPoints(children: seq<Node>) returns (points: seq<Node>)
      ensures points == Matching(children)
    {
      points := [];
      var i := 0;
      while i < |children|
        invariant 0 <= i <= |children|
        invariant points == Matching(children[..i])
      {
        assert children[..i + 1][..i] == children[..i];
        if StartsWith(children[i].name, Prefix) {
          points := points + [children[i]];
        }
        i := i + 1;
      }
      assert children[..i] == children;
    }

    /**
     * Number the waypoints: an array as long as the list of matches, each
     * match stored at the number in its name, then head for slot 0. An
     * exception ends Start where it is thrown, with the array partly filled
     * and no current waypoint. With no matches nothing changes.
     */
    method Start(children: seq<Node>)
      requires Valid() && currentPoint == None
      modifies this`patrolPoints, this`currentPointIndex, this`currentPoint
      ensures Valid()
      ensures Matching(children) == [] ==> unchanged(this`patrolPoints, this`currentPointIndex, this`currentPoint)
      ensures Matching(children) != [] ==>
        fresh(patrolPoints) &&
        patrolPoints[..] == Place(|Matching(children)|, Matching(children), NodeSlot).slots
      ensures Matching(children) != [] && Place(|Matching(children)|, Matching(children), NodeSlot).error == None ==>
        currentPointIndex == 0 && currentPoint == patrolPoints[0]
      ensures Place(|Matching(children)|, Matching(children), NodeSlot).error.Some? ==>
        currentPoint == None && currentPointIndex == old(currentPointIndex)
    {
      var points := GetUnsortedPatrolPoints(children);
      if |points| > 0 {
        var slots := new Option<Node>[|points|](_ => None);
        patrolPoints := slots;
        var error := FillSlots(slots, points, NodeSlot);
        if error == None {
          SetCurrentPatrolPoint(0);
        }
      } else {
        assert Place(0, points, NodeSlot) == Fill([], None);
      }
    }

    /**
     * One frame: step toward the current waypoint by moveSpeed * dt. On
     * reaching it exactly, head for the next index, wrapping after the last;
     * otherwise turn the model toward the waypoint. Without a current
     * waypoint nothing happens. `distance` is the distance from the
     * position to the waypoint before the step.
     */
    method Update(dt: real, distance: real)
      requires Valid() && dt >= 0.0
      requires currentPoint.Some? ==>
        distance >= 0.0 && distance * distance == SqrDistance(position, currentPoint.value.position)
      modifies this`position, this`rotation, this`currentPointIndex, this`currentPoint
      ensures Valid()
      ensures old(currentPoint) == None ==>
        unchanged(this`position, this`rotation, this`currentPointIndex, this`currentPoint)
      ensures old(currentPoint).Some? ==>
        position == MoveTowards(old(position), old(currentPoint).value.position, moveSpeed * dt, distance)
      ensures old(currentPoint).Some? && moveSpeed >= 0.0 ==>
        (position == old(currentPoint).value.position <==> distance <= moveSpeed * dt)
      ensures old(currentPoint).Some? && position == old(currentPoint).value.position ==>
        currentPointIndex == NextIndex(old(currentPointIndex), patrolPoints.Length) &&
        currentPoint == patrolPoints[currentPointIndex] &&
        rotation == old(rotation)
      ensures old(currentPoint).Some? && position != old(currentPoint).value.position ==>
        currentPointIndex == old(currentPointIndex) && currentPoint == old(currentPoint) &&
        rotation == Slerp(old(rotation), LookAt(old(currentPoint).value.position.Minus(position)), RotationSlerpAmount)
    {
      if currentPoint.Some? {
        var target := currentPoint.value.position;
        if moveSpeed >= 0.0 { MulNonNegative(moveSpeed, dt); }
        var next := MoveTowards(position, target, moveSpeed * dt, distance);
        var arrived := next == target;
        assert moveSpeed >= 0.0 ==> (arrived <==> distance <= moveSpeed * dt);
        position := next;
        if arrived {
          if currentPointIndex >= patrolPoints.Length - 1 {
            SetCurrentPatrolPoint(0);
          } else {
            SetCurrentPatrolPoint(currentPointIndex + 1);
          }
        } else {
          rotation := Slerp(rotation, LookAt(target.Minus(position)), RotationSlerpAmount);
        }
      }
    }
  }
}
