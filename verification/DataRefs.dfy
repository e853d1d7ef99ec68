/**
  A subscribed dataref caches the value last announced and the value last sampled. The types with exact
  comparison are modelled: int, int arrays and byte strings, all as sequences of integers.
*/
module DataRefs {
  import opened Common

  datatype Kind = Scalar | Ints | Chars

  datatype Cell = Cell(kind: Kind, value: seq<int>, newValue: seq<int>, size: nat)

  const UNSET := -999999

  function NewCell(kind: Kind): Cell {
    if kind.Scalar? then Cell(kind, [UNSET], [UNSET], 0) else Cell(kind, [], [], 0)
  }

  predicate Valid(c: Cell) {
    if c.kind.Scalar? then |c.value| == 1 && |c.newValue| == 1
    else |c.value| == c.size && |c.newValue| == c.size
  }

  function Zeros(n: nat): (z: seq<int>)
    ensures |z| == n
  {
    seq(n, _ => 0)
  }

  /** X-Plane's array read: overwrite as many leading elements as there are on both sides. */
  function Overwritten(before: seq<int>, content: seq<int>): (r: seq<int>)
    ensures |r| == |before|
  {
    if |content| >= |before| then content[..|before|] else content + before[|content|..]
  }

  /** Whether a sample makes an array drop what it had cached: its first data, or a string of new length. */
  predicate Resets(c: Cell, content: seq<int>) {
    && !c.kind.Scalar?
    && if c.size == 0 then |content| > 0 else c.kind.Chars? && |content| != c.size
  }

  /** What X-Plane holds fits the type: an int is one number. */
  predicate Fits(c: Cell, content: seq<int>) {
    c.kind.Scalar? ==> |content| == 1
  }

  /** update_new_value_from_xplane */
  function Sampled(c: Cell, content: seq<int>): (r: Cell)
    requires Valid(c) && Fits(c, content)
    ensures Valid(r) && r.kind == c.kind
  {
    if c.kind.Scalar? then c.(newValue := content)
    else
      var size := if c.size == 0 then |content| else c.size;
      var base := if Resets(c, content) then Zeros(size) else c.newValue;
      Cell(c.kind, if Resets(c, content) then Zeros(size) else c.value, Overwritten(base, content), size)
  }

  /** get_changed_value: the value to announce if the sample differs from the cache, which it then joins. */
  function Changed(c: Cell): (Cell, Option<seq<int>>)
    requires Valid(c)
  {
    if c.value != c.newValue then (c.(value := c.newValue), Some(c.newValue)) else (c, None)
  }

  /** After get_changed_value the cache is the sample, announced or not. */
  lemma ChangedCaches(c: Cell)
    requires Valid(c)
    ensures var (c', v) := Changed(c);
      && Valid(c') && c'.value == c'.newValue == c.newValue && c'.size == c.size
      && v == if c.value != c.newValue then Some(c.newValue) else None
  {
  }

  /**
    A sample is what X-Plane holds. An int is read whole; an array keeps its old elements beyond what
    is read; a string that is shorter, longer or new is zero beyond it. The cache of an array is zeroed
    with its first data, that of a string whenever its length is another one.
  */
  lemma SampleIsRead(c: Cell, content: seq<int>)
    requires Valid(c) && Fits(c, content)
    ensures var r := Sampled(c, content);
      match c.kind
      case Scalar => r.newValue == content && r.value == c.value
      case Ints =>
        && r.size == (if c.size == 0 then |content| else c.size) && |r.newValue| == r.size
        && (forall j :: 0 <= j < r.size ==> r.newValue[j] == if j < |content| then content[j] else c.newValue[j])
        && r.value == (if c.size == 0 then Zeros(|content|) else c.value)
      case Chars =>
        && r.size == (if c.size == 0 then |content| else c.size) && |r.newValue| == r.size
        && (forall j :: 0 <= j < r.size ==> r.newValue[j] == if j < |content| then content[j] else 0)
        && r.value == if |content| == c.size then c.value else Zeros(r.size)
  {
  }

  /** The first sample of an int is announced unless it is the value that stands for none. */
  lemma FirstIntIsAnnouncedIff(x: int)
    ensures Changed(Sampled(NewCell(Scalar), [x])).1 == if x == -999999 then None else Some([x])
  {
    if x != -999999 {
      assert [UNSET][0] != [x][0];
    }
  }

  /** A read of the cell's size gives exactly what X-Plane holds. */
  lemma FullReadIsExact(c: Cell, content: seq<int>)
    requires Valid(c) && Fits(c, content)
    requires c.kind.Scalar? || |content| == Sampled(c, content).size
    ensures Sampled(c, content).newValue == content
  {
    SampleIsRead(c, content);
  }

  /** What has just been announced has not changed. */
  lemma ChangedTwice(c: Cell)
    requires Valid(c)
    ensures var c' := Changed(c).0;
      Valid(c') && Changed(c').0 == c' && c'.newValue == c.newValue
  {
  }

  /** Sampling twice what has not changed in X-Plane is sampling once. */
  lemma SampledTwice(c: Cell, content: seq<int>)
    requires Valid(c) && Fits(c, content)
    ensures Sampled(Sampled(c, content), content) == Sampled(c, content)
  {
  }

  /** The vector after its first i elements have been read. */
  function Copied(content: seq<int>, before: seq<int>, i: nat): (r: seq<int>)
    requires i <= |content| && i <= |before|
    ensures |r| == |before|
  {
    content[..i] + before[i..]
  }

  lemma CopiedOneMore(content: seq<int>, before: seq<int>, i: nat)
    requires i < |content| && i < |before|
    ensures Copied(content, before, i)[i := content[i]] == Copied(content, before, i + 1)
  {
  }

  lemma CopiedAll(content: seq<int>, before: seq<int>)
    ensures Copied(content, before, if |content| < |before| then |content| else |before|) == Overwritten(before, content)
  {
  }

  lemma CopiedNone(content: seq<int>, before: seq<int>)
    ensures Copied(content, before, 0) == before
  {
  }

  /** The array and string classes, which compare and copy element by element. */
  class VectorDataRef {
    const kind: Kind
    var value: seq<int>
    var newValue: seq<int>
    var size: nat

    function View(): Cell
      reads this
    {
      Cell(kind, value, newValue, size)
    }

    constructor (kind: Kind)
      requires !kind.Scalar?
      ensures View() == NewCell(kind) && Valid(View())
    {
      this.kind := kind;
      value, newValue, size := [], [], 0;
    }

    method CopyFrom(content: seq<int>)
      requires Valid(View()) && !kind.Scalar?
      modifies this`newValue
      ensures newValue == Overwritten(old(newValue), content)
    {
      hide Copied;
      var n := if |content| < |newValue| then |content| else |newValue|;
      CopiedNone(content, newValue);
      for i := 0 to n
        invariant newValue == Copied(content, old(newValue), i)
      {
        CopiedOneMore(content, old(newValue), i);
        newValue := newValue[i := content[i]];
      }
      CopiedAll(content, old(newValue));
    }

    method UpdateNewValueFromXplane(content: seq<int>)
      requires Valid(View()) && !kind.Scalar?
      modifies this
      ensures View() == Sampled(old(View()), content)
    {
      if size == 0 {
        size := |content|;
        if size > 0 {
          newValue, value := Zeros(size), Zeros(size);
        }
      } else if kind == Chars && size != |content| {
        newValue, value := Zeros(size), Zeros(size);
      }
      if size > 0 {
        CopyFrom(content);
      }
    }

    method GetChangedValue() returns (r: Option<seq<int>>)
      requires Valid(View()) && !kind.Scalar?
      modifies this`value
      ensures (View(), r) == Changed(old(View()))
    {
      var valuesChanged := false;
      var i := 0;
      while i < size && !valuesChanged
        invariant 0 <= i <= size
        invariant valuesChanged ==> value != newValue
        invariant !valuesChanged ==> value[..i] == newValue[..i]
        decreases size - i, !valuesChanged
      {
        if value[i] != newValue[i] {
          valuesChanged := true;
        } else {
          i := i + 1;
        }
      }
      if valuesChanged {
        value := newValue;
        return Some(value);
      }
      return None;
    }
  }
}
