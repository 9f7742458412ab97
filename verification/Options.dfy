/** The usual optional value: a Go pointer or map lookup that may come back empty. */
module Options {

  datatype Option<+T> = None | Some(value: T) {
    function GetOr(default: T): T {
      match this
      case Some(v) => v
      case None => default
    }
  }

  /** A Go map lookup `v, ok := m[k]`. */
  function Get<K, V>(m: map<K, V>, k: K): Option<V> {
    if k in m then Some(m[k]) else None
  }

  ghost predicate NoDuplicates<T>(s: seq<T>) {
    forall i, j :: 0 <= i < j < |s| ==> s[i] != s[j]
  }

  /** One more element of a prefix. */
  lemma PrefixStep<T>(s: seq<T>, i: nat)
    requires i < |s|
    ensures s[..i + 1] == s[..i] + [s[i]]
    ensures s[..|s|] == s
    ensures NoDuplicates(s) ==> s[i] !in s[..i]
  {
  }

  lemma PrefixMember<T>(s: seq<T>, n: nat)
    requires n <= |s|
    ensures forall x :: x in s[..n] ==> x in s
  {
  }

  lemma HeadOrRest<T>(s: seq<T>)
    requires s != []
    ensures s[0] in s
    ensures forall x :: x in s[1..] ==> x in s
    ensures forall x :: x in s ==> x == s[0] || x in s[1..]
  {
    forall x | x in s
      ensures x == s[0] || x in s[1..]
    {
      var i :| 0 <= i < |s| && s[i] == x;
      if i > 0 {
        assert s[1..][i - 1] == x;
      }
    }
  }
}
