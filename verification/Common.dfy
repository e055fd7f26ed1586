/** Small datatypes shared by every module. */
module Common {

  /** A value that may be absent: Go's nil pointer or missing map entry. */
  datatype Option<+T> = None | Some(value: T) {
    function GetOr(default: T): T {
      match this
      case Some(v) => v
      case None => default
    }
  }

  /** Instants and durations, in whole seconds. */
  type Time = int

  lemma SubsetSize<T>(a: set<T>, b: set<T>)
    requires a <= b
    ensures |a| <= |b|
    ensures a != b ==> |a| < |b|
  {
    assert b == a + (b - a);
    assert |b| == |a| + |b - a|;
    if a != b { assert |b - a| > 0; }
  }

  lemma SizeWithOneMore<T>(a: set<T>, x: T)
    ensures |a + {x}| == |a| + (if x in a then 0 else 1)
  {
    if x in a { assert a + {x} == a; }
  }

  lemma Assoc<T>(a: seq<T>, b: seq<T>, c: seq<T>)
    ensures a + b + c == a + (b + c)
  {
  }
}
