/** Comma-separated lists as the idler and the unidler edit them:
    internal/handlers/idler/helpers.go and internal/handlers/unidler/helpers.go.
    `Split` and `Join` are Go's strings.Split and strings.Join with separator ",". */
module CommaList {
  import opened Options

  /** strings.Split(s, ","): never empty, and [""] for the empty string. */
  function Split(s: string): (parts: seq<string>)
    ensures |parts| >= 1
  {
    if s == "" then [""] else Push(s[0], Split(s[1..]))
  }

  /** Put one more character in front: a comma opens a new entry. */
  function Push(c: char, parts: seq<string>): (r: seq<string>)
    requires |parts| >= 1
    ensures |r| >= 1
  {
    if c == ',' then [""] + parts else [[c] + parts[0]] + parts[1..]
  }

  /** strings.Join(parts, ","). */
  function Join(parts: seq<string>): string {
    if |parts| == 0 then ""
    else if |parts| == 1 then parts[0]
    else parts[0] + "," + Join(parts[1..])
  }

  ghost predicate CommaFree(s: string) {
    ',' !in s
  }

  ghost predicate AllCommaFree(parts: seq<string>) {
    forall p :: p in parts ==> CommaFree(p)
  }

  /** The entries different from `code`, in order. */
  function Without(parts: seq<string>, code: string): (rest: seq<string>)
    ensures forall p :: p in rest <==> p in parts && p != code
  {
    if parts == [] then []
    else if parts[0] == code then Without(parts[1..], code)
    else [parts[0]] + Without(parts[1..], code)
  }

  /** What addStatusCode returns. */
  function Added(codes: string, code: string): string {
    if codes == "" then code
    else if code in Split(codes) then codes
    else codes + "," + code
  }

  /** What removeStatusCode returns; None is Go's nil. */
  function Removed(codes: string, code: string): Option<string> {
    var rest := Without(Split(codes), code);
    if rest == [] then None else Some(Join(rest))
  }

  /** The ordered entries that belong to the user: neither empty nor the controller's own `code`. */
  function Kept(codes: string, code: string): seq<string> {
    Without(Without(Split(codes), code), "")
  }

  /** No empty entries; the empty string counts as the empty list. */
  ghost predicate Tidy(codes: string) {
    codes == "" || "" !in Split(codes)
  }

  // ---------------------------------------------------------------- the two loops

  method AddStatusCode(codes: string, code: string) returns (r: string)
    ensures r == Added(codes, code)
  {
    if codes == "" {
      return code;
    }
    var parts := Split(codes);
    for i := 0 to |parts|
      invariant code !in parts[..i]
    {
      if parts[i] == code {
        return codes;
      }
    }
    assert parts[..|parts|] == parts;
    r := codes + "," + code;
  }

  method RemoveStatusCode(codes: string, code: string) returns (r: Option<string>)
    ensures r == Removed(codes, code)
  {
    var newCodes := [];
    var parts := Split(codes);
    for i := 0 to |parts|
      invariant newCodes == Without(parts[..i], code)
    {
      WithoutAppend(parts[..i], [parts[i]], code);
      assert parts[..i + 1] == parts[..i] + [parts[i]];
      if parts[i] != code {
        newCodes := newCodes + [parts[i]];
      }
    }
    assert parts[..|parts|] == parts;
    if |newCodes| == 0 {
      return None;
    }
    r := Some(Join(newCodes));
  }

  // ---------------------------------------------------------------- Split and Join are inverses

  lemma {:induction false} JoinSplit(s: string)
    ensures Join(Split(s)) == s
  {
    if s != "" {
      JoinSplit(s[1..]);
      JoinPush(s[0], Split(s[1..]));
    }
  }

  lemma {:induction false} JoinPush(c: char, parts: seq<string>)
    requires |parts| >= 1
    ensures Join(Push(c, parts)) == [c] + Join(parts)
  {
    assert Push(c, parts)[1..] == if c == ',' then parts else parts[1..];
  }

  lemma {:induction false} SplitCommaFree(s: string)
    ensures AllCommaFree(Split(s))
  {
    if s != "" {
      SplitCommaFree(s[1..]);
      assert Split(s[1..])[0] in Split(s[1..]);
    }
  }

  lemma {:induction false} SplitOne(s: string)
    requires CommaFree(s)
    ensures Split(s) == [s]
  {
    if s != "" {
      SplitOne(s[1..]);
      assert s[0] in s;
      assert [s[0]] + s[1..] == s;
    }
  }

  /** A comma between two texts separates their entries. */
  lemma {:induction false} SplitAppend(a: string, b: string)
    ensures Split(a + "," + b) == Split(a) + Split(b)
  {
    if a == "" {
      assert ("," + b)[1..] == b;
    } else {
      SplitAppend(a[1..], b);
      var whole := a + "," + b;
      assert whole[1..] == a[1..] + "," + b && whole[0] == a[0];
      PushAppend(a[0], Split(a[1..]), Split(b));
    }
  }

  lemma {:induction false} PushAppend(c: char, a: seq<string>, b: seq<string>)
    requires |a| >= 1
    ensures Push(c, a + b) == Push(c, a) + b
  {
    assert (a + b)[0] == a[0] && (a + b)[1..] == a[1..] + b;
  }

  lemma {:induction false} SplitJoin(parts: seq<string>)
    requires parts != [] && AllCommaFree(parts)
    ensures Split(Join(parts)) == parts
  {
    SplitOne(parts[0]);
    if |parts| > 1 {
      SplitAppend(parts[0], Join(parts[1..]));
      SplitJoin(parts[1..]);
    }
  }

  // ---------------------------------------------------------------- Without

  lemma {:induction false} WithoutAppend(a: seq<string>, b: seq<string>, code: string)
    ensures Without(a + b, code) == Without(a, code) + Without(b, code)
  {
    if a == [] {
      assert a + b == b;
    } else {
      WithoutAppend(a[1..], b, code);
      var whole := a + b;
      assert whole[1..] == a[1..] + b && whole[0] == a[0];
      if a[0] != code {
        assert [a[0]] + (Without(a[1..], code) + Without(b, code)) == [a[0]] + Without(a[1..], code) + Without(b, code);
      }
    }
  }

  lemma {:induction false} WithoutAbsent(parts: seq<string>, code: string)
    requires code !in parts
    ensures Without(parts, code) == parts
  {
    if parts != [] {
      WithoutAbsent(parts[1..], code);
    }
  }

  // ---------------------------------------------------------------- the entries of the two results

  lemma AddedEntries(codes: string, code: string)
    requires CommaFree(code)
    ensures Split(Added(codes, code)) ==
            if codes == "" then [code]
            else if code in Split(codes) then Split(codes) else Split(codes) + [code]
  {
    SplitOne(code);
    SplitAppend(codes, code);
  }

  lemma RemovedEntries(codes: string, code: string)
    ensures Removed(codes, code).None? <==> Without(Split(codes), code) == []
    ensures Removed(codes, code).Some? ==> Split(Removed(codes, code).value) == Without(Split(codes), code)
  {
    SplitCommaFree(codes);
    if Without(Split(codes), code) != [] {
      SplitJoin(Without(Split(codes), code));
    }
  }

  // ---------------------------------------------------------------- the algebra

  /** Remove undoes add on every list that lacked the code; an empty list comes back as nil. */
  lemma RemoveUndoesAdd(codes: string, code: string)
    requires CommaFree(code) && code !in Split(codes)
    ensures Removed(Added(codes, code), code) == if codes == "" then None else Some(codes)
  {
    AddedEntries(codes, code);
    if codes == "" {
      assert Without([code], code) == [];
    } else {
      WithoutAppend(Split(codes), [code], code);
      WithoutAbsent(Split(codes), code);
      assert Without([code], code) == [];
      assert Without(Split(codes) + [code], code) == Split(codes);
      JoinSplit(codes);
    }
  }

  lemma AddIdempotent(codes: string, code: string)
    requires CommaFree(code) && code != ""
    ensures Added(Added(codes, code), code) == Added(codes, code)
    ensures code in Split(Added(codes, code))
  {
    AddedEntries(codes, code);
  }

  lemma RemoveIdempotent(codes: string, code: string)
    ensures Removed(codes, code).Some? ==>
              Removed(Removed(codes, code).value, code) == Removed(codes, code)
              && code !in Split(Removed(codes, code).value)
  {
    RemovedEntries(codes, code);
    WithoutAbsent(Without(Split(codes), code), code);
  }

  /** The one case in which adding `a` and removing `b` do not commute: `a` is missing, and removing `b`
      leaves nothing but one empty entry, which then reads as the empty list. */
  predicate LeavesEmptyEntry(codes: string, a: string, b: string) {
    codes != "" && a !in Split(codes) && Without(Split(codes), b) == [""]
  }

  /** Adding one code and removing another commute on every list without empty entries; on the others
      they do unless `b` is all there is beside a single empty entry. */
  lemma AddRemoveCommute(codes: string, a: string, b: string)
    requires CommaFree(a) && a != "" && b != "" && a != b
    ensures Removed(Added(codes, a), b).GetOr("") == Added(Removed(codes, b).GetOr(""), a)
            <==> !LeavesEmptyEntry(codes, a, b)
    ensures Tidy(codes) ==> !LeavesEmptyEntry(codes, a, b)
  {
    if codes == "" {
      SplitOne(a);
      assert Without([a], b) == [a];
      assert Without([""], b) == [""];
    } else {
      AddRemoveNonEmpty(codes, a, b);
      assert Without(Split(codes), b) == [""] ==> "" in Without(Split(codes), b);
    }
  }

  lemma AddRemoveNonEmpty(codes: string, a: string, b: string)
    requires CommaFree(a) && a != "" && a != b && codes != ""
    ensures Removed(Added(codes, a), b).GetOr("") == Added(Removed(codes, b).GetOr(""), a)
            <==> !LeavesEmptyEntry(codes, a, b)
  {
    var rest := Without(Split(codes), b);
    AddedEntries(codes, a);
    RemovedEntries(codes, b);
    if a in Split(codes) {
      assert a in rest;
      assert Split("") == [""];
    } else {
      WithoutAppend(Split(codes), [a], b);
      assert Without([a], b) == [a];
      assert Without(Split(codes) + [a], b) == rest + [a];
      if rest != [] {
        JoinAppend(rest, a);
        JoinSplit(Join(rest));
        assert Join(rest) == "" ==> rest == Split("");
      }
    }
  }

  lemma {:induction false} JoinAppend(parts: seq<string>, last: string)
    requires parts != []
    ensures Join(parts + [last]) == Join(parts) + "," + last
  {
    assert (parts + [last])[1..] == parts[1..] + [last];
    if |parts| > 1 {
      JoinAppend(parts[1..], last);
    }
  }

  // ---------------------------------------------------------------- conservation

  /** Neither operation touches the user's entries or their order. */
  lemma AddKeeps(codes: string, code: string)
    requires CommaFree(code)
    ensures Kept(Added(codes, code), code) == Kept(codes, code)
  {
    AddedEntries(codes, code);
    WithoutAppend(Split(codes), [code], code);
    assert Without(Split(codes), code) + [] == Without(Split(codes), code);
  }

  lemma RemoveKeeps(codes: string, code: string)
    ensures Kept(Removed(codes, code).GetOr(""), code) == Kept(codes, code)
  {
    RemovedEntries(codes, code);
    WithoutAbsent(Without(Split(codes), code), code);
    assert Without(Without([""], code), "") == [] by { assert Without([""], "") == []; }
  }

  lemma AddTidy(codes: string, code: string)
    requires CommaFree(code) && code != "" && Tidy(codes)
    ensures Tidy(Added(codes, code))
  {
    AddedEntries(codes, code);
  }

  /** On a list without empty entries, remove leaves exactly the user's entries. */
  lemma RemoveLeavesKept(codes: string, code: string)
    requires code != "" && Tidy(codes)
    ensures Removed(codes, code).GetOr("") == Join(Kept(codes, code))
    ensures Tidy(Removed(codes, code).GetOr(""))
  {
    RemovedEntries(codes, code);
    if codes == "" {
      assert Without([""], code) == [""];
    } else {
      WithoutAbsent(Without(Split(codes), code), "");
    }
  }
}
