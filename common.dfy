/** Values shared by the renderer-side node layer, the main-process view
    registry and the preload bridge. */
module Common {

  /** An optional value: `None` stands for an absent key or `undefined`. */
  datatype Option<+T> = None | Some(value: T)

  /** An Electron.Rectangle: position and size of a surface, in pixels. */
  datatype Rect = Rect(x: int, y: int, width: int, height: int)

  /** One IPC message: the channel name and its arguments, in order. */
  datatype Message = Message(channel: string, args: seq<string>)

  /** No element occurs twice. */
  predicate Distinct<T(==)>(s: seq<T>) {
    forall i, j :: 0 <= i < j < |s| ==> s[i] != s[j]
  }

  /** `s` with every occurrence of `x` taken out, the rest in order. */
  function Without<T(==)>(s: seq<T>, x: T): (r: seq<T>)
    ensures forall k :: 0 <= k < |r| ==> r[k] in s && r[k] != x
    ensures forall k :: 0 <= k < |s| && s[k] != x ==> s[k] in r
    ensures x !in s ==> r == s
    ensures |r| <= |s|
    ensures Distinct(s) ==> Distinct(r)
  {
    if s == [] then []
    else if s[0] == x then Without(s[1..], x)
    else [s[0]] + Without(s[1..], x)
  }

  /** Taking out an element keeps the relative order of the others: the
      positions of two survivors in the result are ordered as in `s`. */
  lemma {:induction false} WithoutKeepsOrder<T>(s: seq<T>, x: T, i: nat, j: nat)
    requires i < j < |s| && s[i] != x && s[j] != x
    ensures exists p, q :: 0 <= p < q < |Without(s, x)| && Without(s, x)[p] == s[i] && Without(s, x)[q] == s[j]
  {
    var r := Without(s, x);
    if i == 0 {
      assert r == [s[0]] + Without(s[1..], x);
      assert s[j] == s[1..][j - 1];
      assert s[j] in Without(s[1..], x);
      var q' :| 0 <= q' < |Without(s[1..], x)| && Without(s[1..], x)[q'] == s[j];
      assert r[0] == s[i] && r[q' + 1] == s[j];
    } else {
      assert s[i] == s[1..][i - 1] && s[j] == s[1..][j - 1];
      WithoutKeepsOrder(s[1..], x, i - 1, j - 1);
      var t := Without(s[1..], x);
      var p', q' :| 0 <= p' < q' < |t| && t[p'] == s[i] && t[q'] == s[j];
      if s[0] == x {
        assert r == t;
      } else {
        assert r == [s[0]] + t;
        assert r[p' + 1] == s[i] && r[q' + 1] == s[j];
      }
    }
  }
}
