/** msgpack_object_equal, with floats compared by their bits. */
module MsgEqual {
  import opened MsgObject

  /** Equal if and only if the objects are the same. */
  method ObjectEqual(x: Obj, y: Obj) returns (r: bool)
    ensures r <==> x == y
    decreases x, 1
  {
    match x
    case Arr(xs) =>
      if !y.Arr? || |xs| != |y.items| {
        return false;
      }
      r := ItemsEqual(xs, y.items);
    case Map(es) =>
      if !y.Map? || |es| != |y.entries| {
        return false;
      }
      r := EntriesEqual(es, y.entries);
    case _ => r := x == y;
  }

  method ItemsEqual(xs: seq<Obj>, ys: seq<Obj>) returns (r: bool)
    requires |xs| == |ys|
    ensures r <==> xs == ys
    decreases xs, 0
  {
    var i := 0;
    while i < |xs|
      invariant i <= |xs| && xs[..i] == ys[..i]
    {
      var same := ObjectEqual(xs[i], ys[i]);
      if !same {
        return false;
      }
      i := i + 1;
    }
    assert xs == xs[..i] && ys == ys[..i];
    return true;
  }

  method EntriesEqual(xs: seq<Entry>, ys: seq<Entry>) returns (r: bool)
    requires |xs| == |ys|
    ensures r <==> xs == ys
    decreases xs, 0
  {
    var i := 0;
    while i < |xs|
      invariant i <= |xs| && xs[..i] == ys[..i]
    {
      var same := EntryEqual(xs[i], ys[i]);
      if !same {
        return false;
      }
      i := i + 1;
    }
    assert xs == xs[..i] && ys == ys[..i];
    return true;
  }

  method EntryEqual(a: Entry, b: Entry) returns (r: bool)
    ensures r <==> a == b
    decreases a, 0
  {
    r := ObjectEqual(a.key, b.key);
    if r { r := ObjectEqual(a.val, b.val); }
  }
}
