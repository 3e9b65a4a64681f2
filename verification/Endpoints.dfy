/** Custom service endpoints: the controller validates them, sorts them and publishes them in the
    status; the client reads the status back and sets the environment from it. */
module Endpoints {
  import opened Calls

  datatype Endpoint = Endpoint(name: string, url: string)

  /** A parsed URL, as far as it is looked at. */
  datatype Url = Url(scheme: string, hostname: string, host: string, requestUri: string)

  /** URL parsing is left open; None is a text that does not parse. */
  type Parser = string -> Option<Url>

  /** `status` distinguishes a missing platform status, one without a Power VS part, and one with. */
  datatype Platform = Missing | Bare | PowerVS(endpoints: seq<Endpoint>)
  datatype Infrastructure = Infrastructure(spec: seq<Endpoint>, status: Platform)

  /******* Validation *******/

  predicate ValidUrl(parse: Parser, url: string) {
    var u := parse(url);
    u.Some? && u.value.hostname != "" && u.value.scheme == "https" && u.value.requestUri == "/"
  }

  datatype Problem = Duplicate(index: nat, first: nat) | BadUrl(index: nat)

  // The index of the first endpoint with a name; the length of the list when there is none.
  function FirstNamed(endpoints: seq<Endpoint>, name: string): nat {
    if endpoints == [] || endpoints[0].name == name then 0 else 1 + FirstNamed(endpoints[1..], name)
  }

  function Problems(parse: Parser, endpoints: seq<Endpoint>): seq<Problem> {
    if endpoints == [] then []
    else
      var n := |endpoints| - 1;
      var e, first := endpoints[n], FirstNamed(endpoints[..n], endpoints[n].name);
      Problems(parse, endpoints[..n])
      + (if first < n then [Duplicate(n, first)] else [])
      + (if ValidUrl(parse, e.url) then [] else [BadUrl(n)])
  }

  ghost predicate DistinctNames(endpoints: seq<Endpoint>) {
    forall i, j :: 0 <= i < j < |endpoints| ==> endpoints[i].name != endpoints[j].name
  }

  ghost predicate ValidSpec(parse: Parser, endpoints: seq<Endpoint>) {
    DistinctNames(endpoints) && forall e :: e in endpoints ==> Acceptable(parse(e.url))
  }

  // A secure URL with a host, and with neither a path nor parameters.
  ghost predicate Acceptable(u: Option<Url>) {
    u.Some? && u.value.scheme == "https" && u.value.hostname != "" && u.value.requestUri == "/"
  }

  lemma {:induction false} FirstNamedIs(endpoints: seq<Endpoint>, name: string)
    ensures var i := FirstNamed(endpoints, name);
            && i <= |endpoints| && (i < |endpoints| ==> endpoints[i].name == name)
            && (forall j :: 0 <= j < i ==> endpoints[j].name != name)
  {
    if endpoints != [] && endpoints[0].name != name {
      FirstNamedIs(endpoints[1..], name);
      forall j | 0 <= j < FirstNamed(endpoints, name) ensures endpoints[j].name != name {
        if j > 0 {
          assert endpoints[j] == endpoints[1..][j - 1];
        }
      }
    }
  }

  lemma SpecAppend(parse: Parser, endpoints: seq<Endpoint>, e: Endpoint)
    ensures ValidSpec(parse, endpoints + [e]) <==>
            ValidSpec(parse, endpoints) && Acceptable(parse(e.url)) && FirstNamed(endpoints, e.name) == |endpoints|
  {
    var n, all := |endpoints|, endpoints + [e];
    FirstNamedIs(endpoints, e.name);
    assert all[n] == e && forall i :: 0 <= i < n ==> all[i] == endpoints[i];
    if FirstNamed(endpoints, e.name) < n {
      assert all[FirstNamed(endpoints, e.name)].name == all[n].name;
    }
    assert forall x :: x in all <==> x in endpoints || x == e;
  }

  /** No problem is reported exactly when names are pairwise distinct and every URL is acceptable. */
  lemma {:induction false} NoProblemsExactly(parse: Parser, endpoints: seq<Endpoint>)
    ensures Problems(parse, endpoints) == [] <==> ValidSpec(parse, endpoints)
  {
    if endpoints != [] {
      var n := |endpoints| - 1;
      NoProblemsExactly(parse, endpoints[..n]);
      FirstNamedIs(endpoints[..n], endpoints[n].name);
      SpecAppend(parse, endpoints[..n], endpoints[n]);
      assert endpoints == endpoints[..n] + [endpoints[n]];
    }
  }

  ghost predicate FirstUse(endpoints: seq<Endpoint>, name: string, i: int) {
    0 <= i < |endpoints| && endpoints[i].name == name && forall j :: 0 <= j < i ==> endpoints[j].name != name
  }

  lemma FirstUseIs(endpoints: seq<Endpoint>, name: string, i: int)
    ensures FirstUse(endpoints, name, i) <==> i == FirstNamed(endpoints, name) < |endpoints|
  {
    FirstNamedIs(endpoints, name);
  }

  /** A name that was used before, with where it was used first; or a URL that is not acceptable. */
  ghost predicate IsProblem(parse: Parser, endpoints: seq<Endpoint>, p: Problem) {
    match p
    case Duplicate(i, first) => i < |endpoints| && first < i && FirstUse(endpoints, endpoints[i].name, first)
    case BadUrl(i) => i < |endpoints| && !Acceptable(parse(endpoints[i].url))
  }

  lemma IsProblemAppend(parse: Parser, init: seq<Endpoint>, e: Endpoint, p: Problem)
    ensures IsProblem(parse, init + [e], p) <==>
            || IsProblem(parse, init, p)
            || (p == Duplicate(|init|, FirstNamed(init, e.name)) && FirstNamed(init, e.name) < |init|)
            || (p == BadUrl(|init|) && !Acceptable(parse(e.url)))
  {
    var all, n := init + [e], |init|;
    assert all[n] == e && forall i :: 0 <= i < n ==> all[i] == init[i];
    if p.Duplicate? && p.index < |all| && p.first < p.index {
      var name := all[p.index].name;
      assert FirstUse(all, name, p.first) <==> FirstUse(init, name, p.first);
      FirstUseIs(init, name, p.first);
    }
  }

  /** Exactly these problems are reported. */
  lemma {:induction false} ProblemsExactly(parse: Parser, endpoints: seq<Endpoint>, p: Problem)
    ensures p in Problems(parse, endpoints) <==> IsProblem(parse, endpoints, p)
  {
    if endpoints != [] {
      var n := |endpoints| - 1;
      ProblemsExactly(parse, endpoints[..n], p);
      IsProblemAppend(parse, endpoints[..n], endpoints[n], p);
      assert endpoints == endpoints[..n] + [endpoints[n]];
    }
  }

  // The tracker holds, for each name seen so far, where it was first seen.
  ghost predicate Tracks(tracker: map<string, nat>, seen: seq<Endpoint>) {
    && (forall name :: name in tracker <==> FirstNamed(seen, name) < |seen|)
    && (forall name :: name in tracker ==> tracker[name] == FirstNamed(seen, name))
  }

  lemma TracksAppend(tracker: map<string, nat>, seen: seq<Endpoint>, e: Endpoint)
    requires Tracks(tracker, seen)
    ensures Tracks(if e.name in tracker then tracker else tracker[e.name := |seen|], seen + [e])
  {
    forall name ensures FirstNamed(seen + [e], name) ==
        if FirstNamed(seen, name) < |seen| then FirstNamed(seen, name)
        else if e.name == name then |seen| else |seen| + 1
    {
      FirstNamedAppend(seen, e, name);
    }
  }

  // What one round of the loop reports.
  function ProblemsAt(parse: Parser, e: Endpoint, i: nat, tracker: map<string, nat>): seq<Problem> {
    (if e.name in tracker then [Duplicate(i, tracker[e.name])] else [])
    + (if ValidUrl(parse, e.url) then [] else [BadUrl(i)])
  }

  lemma ProblemsAppend(parse: Parser, seen: seq<Endpoint>, e: Endpoint, tracker: map<string, nat>)
    requires Tracks(tracker, seen)
    ensures Problems(parse, seen + [e]) == Problems(parse, seen) + ProblemsAt(parse, e, |seen|, tracker)
  {
    var all := seen + [e];
    assert all[..|seen|] == seen && all[|seen|] == e;
    assert e.name in tracker <==> FirstNamed(seen, e.name) < |seen|;
    assert e.name in tracker ==> tracker[e.name] == FirstNamed(seen, e.name);
  }

  // One round of the loop.
  method ValidateServiceEndpoint(parse: Parser, e: Endpoint, i: nat, tracker: map<string, nat>)
    returns (found: seq<Problem>, tracker': map<string, nat>)
    ensures found == ProblemsAt(parse, e, i, tracker)
    ensures tracker' == if e.name in tracker then tracker else tracker[e.name := i]
  {
    found, tracker' := [], tracker;
    if e.name in tracker {
      found := found + [Duplicate(i, tracker[e.name])];
    } else {
      tracker' := tracker[e.name := i];
    }
    if !ValidUrl(parse, e.url) {
      found := found + [BadUrl(i)];
    }
  }

  method ValidateServiceEndpoints(parse: Parser, endpoints: seq<Endpoint>) returns (problems: seq<Problem>)
    ensures problems == Problems(parse, endpoints)
  {
    problems := [];
    var tracker: map<string, nat> := map[];
    for i := 0 to |endpoints|
      invariant problems == Problems(parse, endpoints[..i])
      invariant Tracks(tracker, endpoints[..i])
    {
      var e := endpoints[i];
      assert endpoints[..i + 1] == endpoints[..i] + [e];
      TracksAppend(tracker, endpoints[..i], e);
      ProblemsAppend(parse, endpoints[..i], e, tracker);
      var found;
      found, tracker := ValidateServiceEndpoint(parse, e, i, tracker);
      problems := problems + found;
    }
    assert endpoints[..|endpoints|] == endpoints;
  }

  lemma {:induction false} FirstNamedAppend(endpoints: seq<Endpoint>, e: Endpoint, name: string)
    ensures FirstNamed(endpoints, name) <= |endpoints|
    ensures FirstNamed(endpoints + [e], name) ==
            if FirstNamed(endpoints, name) < |endpoints| then FirstNamed(endpoints, name)
            else if e.name == name then |endpoints| else |endpoints| + 1
  {
    if endpoints == [] {
      assert endpoints + [e] == [e];
    } else {
      FirstNamedAppend(endpoints[1..], e, name);
      assert (endpoints + [e])[1..] == endpoints[1..] + [e];
    }
  }

  /******* The order of names *******/

  predicate Less(a: string, b: string) {
    if b == [] then false
    else if a == [] then true
    else a[0] < b[0] || (a[0] == b[0] && Less(a[1..], b[1..]))
  }

  lemma {:induction false} LessTrichotomy(a: string, b: string)
    ensures a == b || Less(a, b) || Less(b, a)
    ensures !(Less(a, b) && Less(b, a)) && (a == b ==> !Less(a, b))
  {
    if a != [] && b != [] && a[0] == b[0] {
      LessTrichotomy(a[1..], b[1..]);
      assert a == [a[0]] + a[1..] && b == [b[0]] + b[1..];
    }
  }

  /** The order is that of the first character in which two names differ; a name comes before its
      continuations. */
  lemma {:induction false} LessExactly(a: string, b: string)
    ensures Less(a, b) <==>
            exists i :: && 0 <= i <= |a| && i < |b| && a[..i] == b[..i] && (i == |a| || a[i] < b[i])
  {
    if a != [] && b != [] && a[0] == b[0] {
      var x, y := a[1..], b[1..];
      LessExactly(x, y);
      assert a == [a[0]] + x && b == [a[0]] + y;
      if Less(x, y) {
        var i :| 0 <= i <= |x| && i < |y| && x[..i] == y[..i] && (i == |x| || x[i] < y[i]);
        assert a[..i + 1] == [a[0]] + x[..i] && b[..i + 1] == [a[0]] + y[..i];
        assert i + 1 == |a| || a[i + 1] < b[i + 1];
      }
      if i :| 0 <= i <= |a| && i < |b| && a[..i] == b[..i] && (i == |a| || a[i] < b[i]) {
        assert i > 0;
        assert x[..i - 1] == a[..i][1..] && y[..i - 1] == b[..i][1..];
        assert i - 1 == |x| || x[i - 1] < y[i - 1];
      }
    } else if b != [] && Less(a, b) {
      assert a[..0] == b[..0];
    } else if i :| 0 <= i <= |a| && i < |b| && a[..i] == b[..i] && (i == |a| || a[i] < b[i]) {
      if i > 0 {
        assert a[..i][0] == b[..i][0];
      }
    }
  }

  lemma {:induction false} LessTransitive(a: string, b: string, c: string)
    requires Less(a, b) && Less(b, c)
    ensures Less(a, c)
  {
    if a != [] && a[0] == b[0] && b[0] == c[0] {
      LessTransitive(a[1..], b[1..], c[1..]);
    }
  }

  /******* Sorting *******/

  // No endpoint stands before one whose name is smaller: what sort.Slice promises.
  ghost predicate Sorted(endpoints: seq<Endpoint>) {
    forall i, j :: 0 <= i < j < |endpoints| ==> !Less(endpoints[j].name, endpoints[i].name)
  }

  ghost predicate IsSortOf(sorted: seq<Endpoint>, endpoints: seq<Endpoint>) {
    Sorted(sorted) && multiset(sorted) == multiset(endpoints)
  }

  function Insert(e: Endpoint, sorted: seq<Endpoint>): seq<Endpoint> {
    if sorted == [] || !Less(sorted[0].name, e.name) then [e] + sorted
    else [sorted[0]] + Insert(e, sorted[1..])
  }

  function SortByName(endpoints: seq<Endpoint>): seq<Endpoint> {
    if endpoints == [] then [] else Insert(endpoints[0], SortByName(endpoints[1..]))
  }

  lemma SortedCons(e: Endpoint, rest: seq<Endpoint>)
    ensures Sorted([e] + rest) <==> Sorted(rest) && forall x :: x in rest ==> !Less(x.name, e.name)
  {
    var all := [e] + rest;
    assert all[0] == e && forall i :: 0 <= i < |rest| ==> all[i + 1] == rest[i];
    if Sorted(all) {
      forall i, j | 0 <= i < j < |rest| ensures !Less(rest[j].name, rest[i].name) {
        assert !Less(all[j + 1].name, all[i + 1].name);
      }
      forall x | x in rest ensures !Less(x.name, e.name) {
        var i :| 0 <= i < |rest| && rest[i] == x;
        assert !Less(all[i + 1].name, all[0].name);
      }
    }
  }

  lemma NotLessTransitive(a: string, b: string, c: string)
    requires !Less(b, a) && !Less(c, b)
    ensures !Less(c, a)
  {
  }

  lemma {:induction false} InsertSorts(e: Endpoint, sorted: seq<Endpoint>)
    requires Sorted(sorted)
    ensures Sorted(Insert(e, sorted)) && multiset(Insert(e, sorted)) == multiset(sorted) + multiset{e}
  {
    if sorted == [] {
    } else {
      var head, tail := sorted[0], sorted[1..];
      assert sorted == [head] + tail;
      SortedCons(head, tail);
      if !Less(head.name, e.name) {
        forall x | x in sorted ensures !Less(x.name, e.name) {
          if x != head {
            NotLessTransitive(e.name, head.name, x.name);
          }
        }
        SortedCons(e, sorted);
      } else {
        InsertSorts(e, tail);
        var rest := Insert(e, tail);
        forall x | x in rest ensures !Less(x.name, head.name) {
          assert x in multiset(rest);
          LessTrichotomy(head.name, e.name);
        }
        SortedCons(head, rest);
      }
    }
  }

  lemma {:induction false} SortSorts(endpoints: seq<Endpoint>)
    ensures IsSortOf(SortByName(endpoints), endpoints)
  {
    if endpoints != [] {
      SortSorts(endpoints[1..]);
      InsertSorts(endpoints[0], SortByName(endpoints[1..]));
      assert endpoints == [endpoints[0]] + endpoints[1..];
    }
  }

  lemma DistinctOfMultiset(a: seq<Endpoint>, b: seq<Endpoint>)
    requires multiset(a) == multiset(b) && DistinctNames(a)
    ensures DistinctNames(b)
  {
    forall i, j | 0 <= i < j < |b| ensures b[i].name != b[j].name {
      if b[i].name == b[j].name {
        assert b[i] in multiset(a) && b[j] in multiset(a);
        var x :| 0 <= x < |a| && a[x] == b[i];
        var y :| 0 <= y < |a| && a[y] == b[j];
        assert x == y;
        TwoOccurrences(b, i, j);
        OneOccurrence(a, x);
      }
    }
  }

  lemma TwoOccurrences(s: seq<Endpoint>, i: nat, j: nat)
    requires i < j < |s| && s[i] == s[j]
    ensures multiset(s)[s[i]] >= 2
  {
    assert s == s[..i] + [s[i]] + s[i + 1..j] + [s[j]] + s[j + 1..];
  }

  lemma OneOccurrence(s: seq<Endpoint>, i: nat)
    requires DistinctNames(s) && i < |s|
    ensures multiset(s)[s[i]] == 1
  {
    assert s == s[..i] + [s[i]] + s[i + 1..];
    assert s[i] !in s[..i] && s[i] !in s[i + 1..];
  }

  lemma HeadsAgree(a: seq<Endpoint>, b: seq<Endpoint>)
    requires Sorted(a) && Sorted(b) && multiset(a) == multiset(b) && DistinctNames(a) && a != [] && b != []
    ensures a[0] == b[0]
  {
    assert a[0] in multiset(b) && b[0] in multiset(a);
    var i :| 0 <= i < |b| && b[i] == a[0];
    var j :| 0 <= j < |a| && a[j] == b[0];
    LessTrichotomy(a[0].name, b[0].name);
  }

  lemma TailsAgree(a: seq<Endpoint>, b: seq<Endpoint>)
    requires multiset(a) == multiset(b) && a != [] && b != [] && a[0] == b[0]
    ensures multiset(a[1..]) == multiset(b[1..])
  {
    assert a == [a[0]] + a[1..] && b == [b[0]] + b[1..];
    assert multiset(a[1..]) == multiset(a) - multiset{a[0]};
    assert multiset(b[1..]) == multiset(b) - multiset{b[0]};
  }

  /** With distinct names there is one way to sort, so every sorting algorithm and every order of the
      spec give the same list. */
  lemma {:induction false} SortIsUnique(a: seq<Endpoint>, b: seq<Endpoint>)
    requires Sorted(a) && Sorted(b) && multiset(a) == multiset(b) && DistinctNames(a)
    ensures a == b
  {
    assert |multiset(a)| == |a| && |multiset(b)| == |b|;
    if a != [] {
      HeadsAgree(a, b);
      TailsAgree(a, b);
      SortIsUnique(a[1..], b[1..]);
      assert a == [a[0]] + a[1..] && b == [b[0]] + b[1..];
    }
  }

  /******* The controller *******/

  datatype Result = Unchanged | Rejected | Written | WriteFailed

  function Published(status: Platform): seq<Endpoint> {
    if status.PowerVS? then status.endpoints else []
  }

  /** One reconcile of the infrastructure object; `update` is how the status update ends. */
  function Reconcile(parse: Parser, infra: Infrastructure, update: Fault): (Infrastructure, Result) {
    var services := infra.spec;
    if services == [] then (infra, Unchanged)
    else if Problems(parse, services) != [] then (infra, Rejected)
    else
      var sorted := SortByName(services);
      if Published(infra.status) == sorted then (infra, Unchanged)
      else
        var written := infra.(status := PowerVS(sorted));
        match update
        case Served => (written, Written)
        case Lost => (written, WriteFailed)
        case Refused => (infra, WriteFailed)
  }

  /** After a reconcile that reports no failure the published list is a sorted permutation of the
      spec, exactly when the spec is valid and not empty or was published as empty already; an
      emptied spec leaves the old list standing. */
  lemma ReconcilePublishes(parse: Parser, infra: Infrastructure, update: Fault)
    ensures var (infra', r) := Reconcile(parse, infra, update);
            && infra'.spec == infra.spec
            && (r == Rejected <==> infra.spec != [] && !ValidSpec(parse, infra.spec))
            && (r == Unchanged || r == Written ==>
                  (IsSortOf(Published(infra'.status), infra.spec) <==>
                     infra.spec != [] || Published(infra.status) == []))
            && (r == Unchanged <==>
                  || infra.spec == []
                  || (ValidSpec(parse, infra.spec) && IsSortOf(Published(infra.status), infra.spec)))
            && (r == Written ==> update == Served)
            && (r == WriteFailed ==> update != Served)
            && (r == Rejected || r == Unchanged || update == Refused ==> infra' == infra)
            && (r == Written || (r == WriteFailed && update == Lost) ==>
                  infra'.status.PowerVS? && IsSortOf(infra'.status.endpoints, infra.spec))
  {
    NoProblemsExactly(parse, infra.spec);
    SortSorts(infra.spec);
    var p := Published(infra.status);
    if infra.spec == [] && p != [] {
      assert p[0] in multiset(p);
    }
    if ValidSpec(parse, infra.spec) && IsSortOf(p, infra.spec) {
      DistinctOfMultiset(infra.spec, p);
      SortIsUnique(p, SortByName(infra.spec));
    }
  }

  /** The published list is canonical: it does not depend on the order of the spec, on the sorting
      algorithm or on what was published before; and publishing it again writes nothing. */
  lemma StatusIsCanonical(parse: Parser, a: Infrastructure, b: Infrastructure, sorted: seq<Endpoint>)
    requires a.spec != [] && ValidSpec(parse, a.spec)
    requires multiset(a.spec) == multiset(b.spec) && IsSortOf(sorted, a.spec)
    ensures var (a', ra) := Reconcile(parse, a, Served);
            var (b', rb) := Reconcile(parse, b, Served);
            && Published(a'.status) == sorted && Published(b'.status) == sorted
            && (forall f :: Reconcile(parse, a', f) == (a', Unchanged))
  {
    NoProblemsExactly(parse, a.spec);
    DistinctOfMultiset(a.spec, b.spec);
    assert b.spec != [] by {
      assert a.spec[0] in multiset(b.spec);
    }
    assert ValidSpec(parse, b.spec) by {
      forall e | e in b.spec ensures Acceptable(parse(e.url)) {
        assert e in multiset(a.spec);
      }
    }
    NoProblemsExactly(parse, b.spec);
    SortSorts(a.spec);
    SortSorts(b.spec);
    DistinctOfMultiset(a.spec, sorted);
    SortIsUnique(sorted, SortByName(a.spec));
    SortIsUnique(sorted, SortByName(b.spec));
  }

  class Controller {
    var infra: Infrastructure
    var writes: nat

    constructor (infra: Infrastructure)
      ensures this.infra == infra && writes == 0
    {
      this.infra, writes := infra, 0;
    }

    method ReconcileOnce(parse: Parser, update: Fault) returns (r: Result)
      modifies this
      ensures (infra, r) == Reconcile(parse, old(infra), update)
      ensures writes == old(writes) + (if r == Written || r == WriteFailed then 1 else 0)
    {
      if infra.spec == [] {
        return Unchanged;
      }
      var problems := ValidateServiceEndpoints(parse, infra.spec);
      if problems != [] {
        return Rejected;
      }
      var services := SortByName(infra.spec);
      var existing := if infra.status.PowerVS? then infra.status.endpoints else [];
      if existing == services {
        return Unchanged;
      }
      writes := writes + 1;
      if update != Refused {
        infra := infra.(status := PowerVS(services));
      }
      r := if update == Served then Written else WriteFailed;
    }
  }

  /******* The client side *******/

  const POWER := "Power"

  function EnvName(key: string): Option<string> {
    match key
    case "IAM" => Some("IBMCLOUD_IAM_API_ENDPOINT")
    case "ResourceController" => Some("IBMCLOUD_RESOURCE_CONTROLLER_API_ENDPOINT")
    case "Power" => Some("IBMCLOUD_POWER_API_ENDPOINT")
    case _ => None
  }

  function ValueOf(parse: Parser, e: Endpoint): Option<string> {
    if e.name != POWER then Some(e.url)
    else
      var u := parse(e.url);
      if u.Some? then Some(u.value.host) else None
  }

  /** None is a failure; a status without a Power VS part resolves to the empty map. */
  function Resolve(parse: Parser, endpoints: seq<Endpoint>): Option<map<string, string>> {
    if endpoints == [] then Some(map[])
    else
      var n := |endpoints| - 1;
      var before, v := Resolve(parse, endpoints[..n]), ValueOf(parse, endpoints[n]);
      if before.None? || v.None? then None else Some(before.value[endpoints[n].name := v.value])
  }

  // Setting a variable fails for a value that holds a NUL character.
  predicate Settable(value: string) {
    '\0' !in value
  }

  function SetEnv(env: map<string, string>, values: map<string, string>, keys: seq<string>): (map<string, string>, bool)
    decreases |keys|
  {
    if keys == [] then (env, true)
    else if EnvName(keys[0]).None? || keys[0] !in values then SetEnv(env, values, keys[1..])
    else if !Settable(values[keys[0]]) then (env, false)
    else SetEnv(env[EnvName(keys[0]).value := values[keys[0]]], values, keys[1..])
  }

  method ResolveEndpoints(parse: Parser, status: Platform) returns (r: Option<map<string, string>>)
    ensures r == Resolve(parse, Published(status))
  {
    if !status.PowerVS? {
      return Some(map[]);
    }
    var endpoints := status.endpoints;
    var m: map<string, string> := map[];
    for i := 0 to |endpoints|
      invariant Resolve(parse, endpoints[..i]) == Some(m)
    {
      assert endpoints[..i + 1][..i] == endpoints[..i];
      var e := endpoints[i];
      if e.name == POWER {
        var u := parse(e.url);
        if u.None? {
          ResolveFails(parse, endpoints, i);
          return None;
        }
        e := e.(url := u.value.host);
      }
      m := m[e.name := e.url];
    }
    assert endpoints[..|endpoints|] == endpoints;
    r := Some(m);
  }

  lemma {:induction false} ResolveFails(parse: Parser, endpoints: seq<Endpoint>, i: nat)
    requires i < |endpoints| && ValueOf(parse, endpoints[i]).None?
    ensures Resolve(parse, endpoints).None?
  {
    var n := |endpoints| - 1;
    if i < n {
      ResolveFails(parse, endpoints[..n], i);
    }
  }

  // The last endpoint of a name.
  ghost predicate LastUse(endpoints: seq<Endpoint>, name: string, i: int) {
    && 0 <= i < |endpoints| && endpoints[i].name == name
    && forall j :: i < j < |endpoints| ==> endpoints[j].name != name
  }

  // What an endpoint is resolved to: its URL, but for Power the host alone.
  ghost predicate Denotes(parse: Parser, e: Endpoint, value: string) {
    if e.name == "Power" then parse(e.url).Some? && value == parse(e.url).value.host else value == e.url
  }

  /** Resolution of any list of endpoints: it fails exactly when the URL of a Power endpoint does not parse;
      otherwise it has the names of the list, each with what its last endpoint denotes. */
  lemma {:induction false} ResolveExactly(parse: Parser, endpoints: seq<Endpoint>)
    ensures Resolve(parse, endpoints).None? <==>
            exists e :: e in endpoints && e.name == "Power" && parse(e.url).None?
    ensures Resolve(parse, endpoints).Some? ==>
              && (forall k :: k in Resolve(parse, endpoints).value <==> exists i :: LastUse(endpoints, k, i))
              && (forall k, i :: LastUse(endpoints, k, i) ==>
                    && k in Resolve(parse, endpoints).value
                    && Denotes(parse, endpoints[i], Resolve(parse, endpoints).value[k]))
  {
    if endpoints != [] {
      var n := |endpoints| - 1;
      var init, last := endpoints[..n], endpoints[n];
      ResolveExactly(parse, init);
      assert forall e :: e in endpoints <==> e in init || e == last;
      assert LastUse(endpoints, last.name, n);
      forall k, i | k != last.name ensures LastUse(endpoints, k, i) <==> LastUse(init, k, i) {}
      forall i | LastUse(endpoints, last.name, i) ensures i == n {}
    }
  }

  class Environment {
    var vars: map<string, string>

    constructor (vars: map<string, string>)
      ensures this.vars == vars
    {
      this.vars := vars;
    }

    method SetCustomEndpoints(values: map<string, string>, keys: seq<string>) returns (ok: bool)
      modifies this
      ensures (vars, ok) == SetEnv(old(vars), values, keys)
    {
      for i := 0 to |keys|
        invariant SetEnv(old(vars), values, keys) == SetEnv(vars, values, keys[i..])
      {
        var name := EnvName(keys[i]);
        if name.Some? && keys[i] in values {
          if !Settable(values[keys[i]]) {
            return false;
          }
          vars := vars[name.value := values[keys[i]]];
        }
      }
      ok := true;
    }
  }

  /******* From the spec to the environment *******/

  lemma {:induction false} ResolveIsTotal(parse: Parser, endpoints: seq<Endpoint>)
    requires ValidSpec(parse, endpoints)
    ensures var m := Resolve(parse, endpoints);
            && m.Some?
            && (forall k :: k in m.value <==> exists e :: e in endpoints && e.name == k)
            && (forall e :: e in endpoints ==> Some(m.value[e.name]) == ValueOf(parse, e))
  {
    if endpoints != [] {
      var n := |endpoints| - 1;
      assert endpoints[n] in endpoints;
      ResolveIsTotal(parse, endpoints[..n]);
      assert forall e :: e in endpoints <==> e in endpoints[..n] || e == endpoints[n];
      forall e | e in endpoints[..n] ensures e.name != endpoints[n].name {
        var i :| 0 <= i < n && endpoints[i] == e;
      }
    }
  }

  lemma {:induction false} SetEnvIs(env: map<string, string>, values: map<string, string>, keys: seq<string>)
    requires forall k :: k in values ==> Settable(values[k])
    ensures var (env', ok) := SetEnv(env, values, keys);
            && ok
            && (forall k :: k in keys && k in values && EnvName(k).Some? ==>
                  EnvName(k).value in env' && env'[EnvName(k).value] == values[k])
            && (forall v :: (forall k :: k in keys && k in values && EnvName(k).Some? ==> EnvName(k).value != v) ==>
                  (v in env' <==> v in env) && (v in env ==> env'[v] == env[v]))
    decreases |keys|
  {
    if keys != [] {
      var k0 := keys[0];
      assert forall k :: k in keys <==> k == k0 || k in keys[1..];
      if EnvName(k0).None? || k0 !in values {
        SetEnvIs(env, values, keys[1..]);
      } else {
        SetEnvIs(env[EnvName(k0).value := values[k0]], values, keys[1..]);
      }
    }
  }

  // A key whose value cannot be set.
  ghost predicate Unsettable(values: map<string, string>, key: string) {
    EnvName(key).Some? && key in values && '\0' in values[key]
  }

  /** Setting the environment fails exactly when a known key comes with a value that cannot be set; it stops
      there, with the keys before it set. */
  lemma {:induction false} SetEnvStops(env: map<string, string>, values: map<string, string>, keys: seq<string>)
    returns (i: nat)
    ensures i <= |keys| && (forall j :: 0 <= j < i ==> !Unsettable(values, keys[j]))
    ensures SetEnv(env, values, keys).1 <==> i == |keys|
    ensures i < |keys| ==> Unsettable(values, keys[i])
    ensures SetEnv(env, values, keys[..i]) == (SetEnv(env, values, keys).0, true)
    decreases |keys|
  {
    if keys == [] || Unsettable(values, keys[0]) {
      i := 0;
    } else {
      var k0 := keys[0];
      var env1 := if EnvName(k0).None? || k0 !in values then env else env[EnvName(k0).value := values[k0]];
      var j := SetEnvStops(env1, values, keys[1..]);
      i := j + 1;
      assert keys[..i][0] == k0 && keys[..i][1..] == keys[1..][..j];
    }
  }

  /** The variables, by name; no other is ever set. */
  lemma EnvNameExactly(key: string, variable: string)
    ensures EnvName(key) == Some(variable) <==>
            || (key == "IAM" && variable == "IBMCLOUD_IAM_API_ENDPOINT")
            || (key == "ResourceController" && variable == "IBMCLOUD_RESOURCE_CONTROLLER_API_ENDPOINT")
            || (key == "Power" && variable == "IBMCLOUD_POWER_API_ENDPOINT")
  {
  }

  // What the endpoint of a name puts into a variable.
  ghost predicate Reaches(env: map<string, string>, variable: string, value: string) {
    variable in env && env[variable] == value
  }

  /** End to end: after a successful reconcile of a non-empty valid spec, the client loses no entry,
      maps each name to its URL (to the host alone for Power), and in any order of the keys sets
      exactly the variables of the known names, to those values, and touches no other variable.
      Parsing is taken to reject texts with a NUL character and to give hosts without one. */
  lemma SpecReachesEnvironment(parse: Parser, infra: Infrastructure, env: map<string, string>, keys: seq<string>)
    requires infra.spec != [] && ValidSpec(parse, infra.spec)
    requires forall s :: parse(s).Some? ==> Settable(s) && Settable(parse(s).value.host)
    requires var m := Resolve(parse, Published(Reconcile(parse, infra, Served).0.status));
             m.Some? ==> forall k :: k in keys <==> k in m.value
    ensures var m := Resolve(parse, Published(Reconcile(parse, infra, Served).0.status));
            && m.Some?
            && (forall k :: k in m.value <==> exists e :: e in infra.spec && e.name == k)
            && (forall e :: e in infra.spec ==> Denotes(parse, e, m.value[e.name]))
            && var (env', ok) := SetEnv(env, m.value, keys);
               && ok
               && (forall e :: e in infra.spec && e.name == "IAM" ==>
                     Reaches(env', "IBMCLOUD_IAM_API_ENDPOINT", e.url))
               && (forall e :: e in infra.spec && e.name == "ResourceController" ==>
                     Reaches(env', "IBMCLOUD_RESOURCE_CONTROLLER_API_ENDPOINT", e.url))
               && (forall e :: e in infra.spec && e.name == "Power" ==>
                     parse(e.url).Some? && Reaches(env', "IBMCLOUD_POWER_API_ENDPOINT", parse(e.url).value.host))
               && (forall v :: !Concerned(infra.spec, v) ==>
                     (v in env' <==> v in env) && (v in env ==> env'[v] == env[v]))
  {
    var published := PublishedIs(parse, infra);
    ResolveIsTotal(parse, published);
    var m := Resolve(parse, published).value;
    forall k | k in m ensures Settable(m[k]) {
      var e :| e in published && e.name == k;
      assert Acceptable(parse(e.url));
    }
    SetEnvIs(env, m, keys);
    EnvironmentIs(parse, infra.spec, m, env, SetEnv(env, m, keys).0);
  }

  // A variable that an endpoint of the spec is meant for.
  ghost predicate Concerned(endpoints: seq<Endpoint>, variable: string) {
    exists e :: e in endpoints &&
      (|| (e.name == "IAM" && variable == "IBMCLOUD_IAM_API_ENDPOINT")
       || (e.name == "ResourceController" && variable == "IBMCLOUD_RESOURCE_CONTROLLER_API_ENDPOINT")
       || (e.name == "Power" && variable == "IBMCLOUD_POWER_API_ENDPOINT"))
  }

  // The table of variables applied to values that a spec was resolved to.
  lemma EnvironmentIs(parse: Parser, spec: seq<Endpoint>, m: map<string, string>, env: map<string, string>,
                      env': map<string, string>)
    requires forall k :: k in m <==> exists e :: e in spec && e.name == k
    requires forall e :: e in spec ==> Some(m[e.name]) == ValueOf(parse, e)
    requires forall k :: k in m && EnvName(k).Some? ==> EnvName(k).value in env' && env'[EnvName(k).value] == m[k]
    requires forall v :: (forall k :: k in m && EnvName(k).Some? ==> EnvName(k).value != v) ==>
               (v in env' <==> v in env) && (v in env ==> env'[v] == env[v])
    ensures forall e :: e in spec ==> Denotes(parse, e, m[e.name])
    ensures forall e :: e in spec && e.name == "IAM" ==> Reaches(env', "IBMCLOUD_IAM_API_ENDPOINT", e.url)
    ensures forall e :: e in spec && e.name == "ResourceController" ==>
              Reaches(env', "IBMCLOUD_RESOURCE_CONTROLLER_API_ENDPOINT", e.url)
    ensures forall e :: e in spec && e.name == "Power" ==>
              parse(e.url).Some? && Reaches(env', "IBMCLOUD_POWER_API_ENDPOINT", parse(e.url).value.host)
    ensures forall v :: !Concerned(spec, v) ==> (v in env' <==> v in env) && (v in env ==> env'[v] == env[v])
  {
    forall v | !Concerned(spec, v) ensures (v in env' <==> v in env) && (v in env ==> env'[v] == env[v]) {
      forall k | k in m && EnvName(k).Some? ensures EnvName(k).value != v {
        EnvNameExactly(k, v);
        var e :| e in spec && e.name == k;
      }
    }
  }

  lemma PublishedIs(parse: Parser, infra: Infrastructure) returns (published: seq<Endpoint>)
    requires infra.spec != [] && ValidSpec(parse, infra.spec)
    ensures published == Published(Reconcile(parse, infra, Served).0.status)
    ensures ValidSpec(parse, published) && forall e :: e in published <==> e in infra.spec
  {
    published := Published(Reconcile(parse, infra, Served).0.status);
    NoProblemsExactly(parse, infra.spec);
    SortSorts(infra.spec);
    DistinctOfMultiset(infra.spec, published);
    assert forall e :: e in published <==> e in multiset(published);
    assert forall e :: e in infra.spec <==> e in multiset(infra.spec);
  }
}
