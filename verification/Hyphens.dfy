/** Namespace normalisation for traefik: regexp `-{2,}` replaced by "-"
    (internal/handlers/idler/service-kubernetes.go:271, internal/handlers/unidler/checks.go:86). */
module Hyphens {
  import opened CommaList

  /** One left-to-right pass: a hyphen followed by a hyphen is dropped. */
  function Collapse(s: string): string {
    if |s| < 2 then s
    else if s[0] == '-' && s[1] == '-' then Collapse(s[1..])
    else [s[0]] + Collapse(s[1..])
  }

  /** The list entry the controller owns in `router.middlewares`. */
  function Middleware(namespace: string): string {
    Collapse(namespace) + "-aergia@kubernetescrd"
  }

  ghost predicate NoDoubleHyphen(s: string) {
    forall i :: 0 <= i < |s| - 1 ==> !(s[i] == '-' && s[i + 1] == '-')
  }

  /** The characters other than hyphens, in order. */
  function Letters(s: string): string {
    if s == "" then "" else (if s[0] == '-' then "" else [s[0]]) + Letters(s[1..])
  }

  lemma {:induction false} CollapseHead(s: string)
    ensures s != "" ==> Collapse(s) != "" && Collapse(s)[0] == s[0]
  {
    if |s| >= 2 {
      CollapseHead(s[1..]);
    }
  }

  lemma {:induction false} CollapseNormal(s: string)
    ensures NoDoubleHyphen(Collapse(s))
    ensures Letters(Collapse(s)) == Letters(s)
    ensures forall c :: c in Collapse(s) <==> c in s
  {
    if |s| >= 2 {
      CollapseNormal(s[1..]);
      CollapseHead(s[1..]);
      var t := Collapse(s[1..]);
      assert s == [s[0]] + s[1..];
      if s[0] == '-' && s[1] == '-' {
        assert s[0] == s[1..][0] && s[0] in s[1..];
      } else {
        assert ([s[0]] + t)[1..] == t;
        forall i | 0 <= i < |[s[0]] + t| - 1
          ensures !(([s[0]] + t)[i] == '-' && ([s[0]] + t)[i + 1] == '-')
        {
          if i > 0 { assert !(t[i - 1] == '-' && t[i] == '-'); }
        }
      }
    }
  }

  /** Text without a double hyphen is left alone. */
  lemma {:induction false} CollapseFixpoint(s: string)
    requires NoDoubleHyphen(s)
    ensures Collapse(s) == s
  {
    if |s| >= 2 {
      assert !(s[0] == '-' && s[1] == '-');
      forall i | 0 <= i < |s[1..]| - 1
        ensures !(s[1..][i] == '-' && s[1..][i + 1] == '-')
      {
        assert !(s[i + 1] == '-' && s[i + 2] == '-');
      }
      CollapseFixpoint(s[1..]);
    }
  }

  /** Idempotent, and the identity exactly on text without a double hyphen. */
  lemma CollapseIdempotent(s: string)
    ensures Collapse(Collapse(s)) == Collapse(s)
    ensures Collapse(s) == s <==> NoDoubleHyphen(s)
  {
    CollapseNormal(s);
    CollapseFixpoint(Collapse(s));
    if NoDoubleHyphen(s) {
      CollapseFixpoint(s);
    }
  }

  /** A double hyphen anywhere counts as a single one. With CollapseFixpoint this determines
      Collapse: every run of hyphens shrinks to one hyphen, and nothing else changes. */
  lemma {:induction false} CollapseRun(a: string, b: string)
    ensures Collapse(a + "--" + b) == Collapse(a + "-" + b)
  {
    if a == "" {
      assert ("--" + b)[1..] == "-" + b;
      assert a + "--" + b == "--" + b && a + "-" + b == "-" + b;
    } else {
      CollapseRun(a[1..], b);
      assert (a + "--" + b)[1..] == a[1..] + "--" + b;
      assert (a + "-" + b)[1..] == a[1..] + "-" + b;
    }
  }

  /** The entry added at idle is a single list entry, so it is exactly the one removed at unidle. */
  lemma MiddlewareIsOneEntry(namespace: string)
    requires CommaFree(namespace)
    ensures CommaFree(Middleware(namespace)) && Middleware(namespace) != ""
    ensures Split(Middleware(namespace)) == [Middleware(namespace)]
  {
    CollapseNormal(namespace);
    var tail := "-aergia@kubernetescrd";
    assert ',' !in tail;
    SplitOne(Middleware(namespace));
  }
}
