/** The Option datatype used for every Java field or argument that may be null. */
module Wrappers {

  datatype Option<+T> = None | Some(value: T)

  /** The first element of `s` that `role` maps to a value, as `stream.map(role).findFirst()`
      would give it: `None` when no element has the role. */
  function FindFirst<E, T(==)>(s: seq<E>, role: E -> Option<T>): (r: Option<T>)
    ensures r.None? <==> forall i :: 0 <= i < |s| ==> role(s[i]).None?
    ensures r.Some? ==>
      exists i :: 0 <= i < |s| && role(s[i]) == r && forall j :: 0 <= j < i ==> role(s[j]).None?
  {
    if |s| == 0 then None
    else if role(s[0]).Some? then role(s[0])
    else
      var rest := FindFirst(s[1..], role);
      assert forall i :: 1 <= i < |s| ==> s[i] == s[1..][i - 1];
      rest
  }

  /** Searching a concatenation finds the first hit of the left part, if it has one. */
  lemma {:induction false} FindFirstAppend<E, T>(s: seq<E>, t: seq<E>, role: E -> Option<T>)
    ensures FindFirst(s + t, role) ==
      if FindFirst(s, role).Some? then FindFirst(s, role) else FindFirst(t, role)
  {
    if |s| == 0 {
      assert s + t == t;
    } else {
      assert (s + t)[0] == s[0];
      assert (s + t)[1..] == s[1..] + t;
      if role(s[0]).None? {
        FindFirstAppend(s[1..], t, role);
      }
    }
  }

  /** Any element that has the role while every earlier one lacks it is the one found. */
  lemma FindFirstIsUnique<E, T>(s: seq<E>, role: E -> Option<T>)
    ensures forall i ::
      (0 <= i < |s| && role(s[i]).Some? && forall j :: 0 <= j < i ==> role(s[j]).None?) ==>
        FindFirst(s, role) == role(s[i])
  {
    forall i | 0 <= i < |s| && role(s[i]).Some? && (forall j :: 0 <= j < i ==> role(s[j]).None?)
      ensures FindFirst(s, role) == role(s[i])
    {
      var r := FindFirst(s, role);
      var k :| 0 <= k < |s| && role(s[k]) == r && forall j :: 0 <= j < k ==> role(s[j]).None?;
      assert !(k < i) && !(i < k);
    }
  }
}
