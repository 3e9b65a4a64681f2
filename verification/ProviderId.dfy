/** The provider id that ties a Machine and its Node to a VM. */
module ProviderId {

  const SCHEME := "ibmpowervs://"

  function Format(region: string, zone: string, service: string, vm: string): string {
    SCHEME + region + "/" + zone + "/" + service + "/" + vm
  }

  lemma CutAtSlash(a: string, x: string, b: string, y: string)
    requires '/' !in a && '/' !in b
    requires a + "/" + x == b + "/" + y
    ensures a == b && x == y
  {
    var s, t := a + "/" + x, b + "/" + y;
    assert s[|a|] == '/' && t[|b|] == '/';
    assert forall i :: 0 <= i < |a| ==> s[i] == a[i];
    assert forall i :: 0 <= i < |b| ==> t[i] == b[i];
    assert a == s[..|a|] && b == t[..|b|];
    assert x == s[|a| + 1..] && y == t[|b| + 1..];
  }

  // The parts of a text between slashes.
  function Split(s: string): (parts: seq<string>)
    ensures parts != []
  {
    if s == [] then [""]
    else
      var rest := Split(s[1..]);
      if s[0] == '/' then [""] + rest else [[s[0]] + rest[0]] + rest[1..]
  }

  lemma {:induction false} SplitAtSlash(a: string, x: string)
    requires '/' !in a
    ensures Split(a + "/" + x) == [a] + Split(x)
  {
    if a == [] {
      assert a + "/" + x == "/" + x && ("/" + x)[1..] == x;
    } else {
      SplitAtSlash(a[1..], x);
      assert (a + "/" + x)[1..] == a[1..] + "/" + x;
      assert a[0] in a && a == [a[0]] + a[1..];
      assert ([a[1..]] + Split(x))[1..] == Split(x);
    }
  }

  lemma {:induction false} SplitWithout(a: string)
    requires '/' !in a
    ensures Split(a) == [a]
  {
    if a != [] {
      SplitWithout(a[1..]);
      assert a[0] in a && a == [a[0]] + a[1..];
    }
  }

  lemma SplitFour(a: string, b: string, c: string, d: string)
    requires '/' !in a && '/' !in b && '/' !in c && '/' !in d
    ensures Split(a + "/" + (b + "/" + (c + "/" + d))) == [a, b, c, d]
  {
    SplitWithout(d);
    SplitAtSlash(c, d);
    SplitAtSlash(b, c + "/" + d);
    SplitAtSlash(a, b + "/" + (c + "/" + d));
  }

  lemma FormatAfterScheme(region: string, zone: string, service: string, vm: string)
    ensures Format(region, zone, service, vm)
            == "ibmpowervs://" + (region + "/" + (zone + "/" + (service + "/" + vm)))
  {
    assert SCHEME == "ibmpowervs://";
  }

  /** Reading a provider id back: after the scheme come the region, the zone, the service instance and the VM,
      in this order, between slashes. */
  lemma SplitFormat(region: string, zone: string, service: string, vm: string) returns (rest: string)
    requires '/' !in region && '/' !in zone && '/' !in service && '/' !in vm
    ensures Format(region, zone, service, vm) == "ibmpowervs://" + rest
    ensures Split(rest) == [region, zone, service, vm]
  {
    rest := region + "/" + (zone + "/" + (service + "/" + vm));
    FormatAfterScheme(region, zone, service, vm);
    SplitFour(region, zone, service, vm);
  }

  /** Equal provider ids name the same region, zone, service instance and VM, provided none of the
      first three contains a slash. */
  lemma FormatInjective(r: string, z: string, s: string, v: string, r': string, z': string, s': string, v': string)
    requires '/' !in r && '/' !in z && '/' !in s && '/' !in r' && '/' !in z' && '/' !in s'
    requires Format(r, z, s, v) == Format(r', z', s', v')
    ensures r == r' && z == z' && s == s' && v == v'
  {
    var n := |SCHEME|;
    assert Format(r, z, s, v)[n..] == r + "/" + (z + "/" + (s + "/" + v));
    assert Format(r', z', s', v')[n..] == r' + "/" + (z' + "/" + (s' + "/" + v'));
    CutAtSlash(r, z + "/" + (s + "/" + v), r', z' + "/" + (s' + "/" + v'));
    CutAtSlash(z, s + "/" + v, z', s' + "/" + v');
    CutAtSlash(s, v, s', v');
  }

  /** The VM alone is determined by what follows the last slash: it takes only VM ids without one. */
  lemma FormatNamesVm(r: string, z: string, s: string, v: string, r': string, z': string, s': string, v': string)
    requires '/' !in v && '/' !in v'
    requires Format(r, z, s, v) == Format(r', z', s', v')
    ensures v == v'
  {
    var f, f' := Format(r, z, s, v), Format(r', z', s', v');
    var n, n' := |f| - |v|, |f'| - |v'|;
    assert f[n..] == v && f'[n'..] == v' && f[n - 1] == '/' && f'[n' - 1] == '/';
    assert forall i :: n <= i < |f| ==> f[i] == v[i - n];
    assert forall i :: n' <= i < |f'| ==> f'[i] == v'[i - n'];
  }

  /** Without that proviso the format is ambiguous: a slash may move from one part to the next. */
  lemma FormatAmbiguous(r: string, z: string, s: string, v: string, extra: string)
    ensures Format(r + "/" + extra, z, s, v) == Format(r, extra + "/" + z, s, v)
    ensures r + "/" + extra != r
  {
  }
}
