// The names generated for the GitOpsDeployments of a binding, and when two of them collide.
module DeploymentNames {
  import opened Wrappers

  const MAX_NAME_LENGTH := 250
  const HASHED_PREFIX := 180

  datatype Parts = Parts(binding: string, application: string, environment: string)

  function LongName(p: Parts, component: string): string {
    p.binding + "-" + p.application + "-" + p.environment + "-" + component
  }

  function ShortName(p: Parts, component: string): string {
    p.binding + "-" + component
  }

  // `hash` is the hexadecimal SHA-256 digest.
  function DeploymentName(p: Parts, component: string, hash: string -> string): (r: string) {
    var long, short := LongName(p, component), ShortName(p, component);
    if |long| <= MAX_NAME_LENGTH then long
    else if |short| <= MAX_NAME_LENGTH then short
    else short[..HASHED_PREFIX] + "-" + hash(long)
  }

  predicate Long(p: Parts, component: string) {
    |LongName(p, component)| <= MAX_NAME_LENGTH
  }

  predicate Hashed(p: Parts, component: string) {
    !Long(p, component) && |ShortName(p, component)| > MAX_NAME_LENGTH
  }

  // What a long name says after the binding's name.
  function Tail(p: Parts, component: string): string {
    p.application + "-" + p.environment + "-" + component
  }

  lemma CommonPrefix(prefix: string, x: string, y: string)
    ensures prefix + x == prefix + y <==> x == y
  {
    assert (prefix + x)[|prefix|..] == x && (prefix + y)[|prefix|..] == y;
  }

  lemma NameAfterBinding(p: Parts, component: string, hash: string -> string)
    requires !Hashed(p, component)
    ensures DeploymentName(p, component, hash) ==
              p.binding + "-" + if Long(p, component) then Tail(p, component) else component
  {
    assert LongName(p, component) == p.binding + "-" + Tail(p, component);
    assert |ShortName(p, component)| <= |LongName(p, component)|;
  }

  lemma UnhashedCollideIff(p: Parts, c: string, d: string, hash: string -> string)
    requires !Hashed(p, c) && !Hashed(p, d)
    ensures DeploymentName(p, c, hash) == DeploymentName(p, d, hash) <==>
              || c == d
              || (Long(p, c) && !Long(p, d) && d == Tail(p, c))
              || (Long(p, d) && !Long(p, c) && c == Tail(p, d))
  {
    NameAfterBinding(p, c, hash);
    NameAfterBinding(p, d, hash);
    var x := if Long(p, c) then Tail(p, c) else c;
    var y := if Long(p, d) then Tail(p, d) else d;
    CommonPrefix(p.binding + "-", x, y);
    if Long(p, c) && Long(p, d) {
      CommonPrefix(p.application + "-" + p.environment + "-", c, d);
    }
  }

  const DIGEST_LENGTH := 64
  const MAX_COMPONENT_LENGTH := 63

  // What a hexadecimal SHA-256 digest looks like.
  predicate IsDigest(h: string) {
    |h| == DIGEST_LENGTH && '-' !in h
  }

  // Two hashed names differ if their digests do.
  lemma HashedCollideIff(p: Parts, c: string, d: string, hash: string -> string)
    requires Hashed(p, c) && Hashed(p, d)
    requires hash(LongName(p, c)) == hash(LongName(p, d)) ==> LongName(p, c) == LongName(p, d)
    ensures DeploymentName(p, c, hash) == DeploymentName(p, d, hash) <==> c == d
  {
    var x, y := hash(LongName(p, c)), hash(LongName(p, d));
    var s, t := ShortName(p, c)[..HASHED_PREFIX] + "-", ShortName(p, d)[..HASHED_PREFIX] + "-";
    if s + x == t + y {
      assert x == (s + x)[HASHED_PREFIX + 1..] == (t + y)[HASHED_PREFIX + 1..] == y;
      CommonPrefix(p.binding + "-" + p.application + "-" + p.environment + "-", c, d);
    }
  }

  // The dash after the binding's name would have to be part of the digest.
  lemma HashedIsNotUnhashed(p: Parts, c: string, d: string, hash: string -> string)
    requires Hashed(p, c) && |c| <= MAX_COMPONENT_LENGTH && IsDigest(hash(LongName(p, c))) && !Hashed(p, d)
    ensures DeploymentName(p, c, hash) != DeploymentName(p, d, hash)
  {
    var name, n := DeploymentName(p, d, hash), |p.binding|;
    NameAfterBinding(p, d, hash);
    var h := hash(LongName(p, c));
    var hashed := ShortName(p, c)[..HASHED_PREFIX] + "-" + h;
    assert |hashed| == HASHED_PREFIX + 1 + DIGEST_LENGTH && n > HASHED_PREFIX;
    assert name[n] == '-';
    if n < |hashed| {
      assert hashed[n] == h[n - HASHED_PREFIX - 1] && h[n - HASHED_PREFIX - 1] in h;
    }
  }

  // A name reads as the binding's name and the component, because the long name does not fit.
  predicate Short(p: Parts, component: string) {
    !Long(p, component) && !Hashed(p, component)
  }

  // One component has a long name, and the other a short one that reads the same.
  predicate Confused(p: Parts, c: string, d: string) {
    Long(p, c) && Short(p, d) && d == Tail(p, c)
  }

  // Two components of a binding get one name exactly if they are one, or one has a long name and the
  // other a short one that reads the same. Digests are taken to be digests, and different for the two
  // long names; a component whose name is hashed has, as its label demands, at most 63 characters.
  lemma NamesCollideIff(p: Parts, c: string, d: string, hash: string -> string)
    requires IsDigest(hash(LongName(p, c))) && IsDigest(hash(LongName(p, d)))
    requires hash(LongName(p, c)) == hash(LongName(p, d)) ==> LongName(p, c) == LongName(p, d)
    requires Hashed(p, c) ==> |c| <= MAX_COMPONENT_LENGTH
    requires Hashed(p, d) ==> |d| <= MAX_COMPONENT_LENGTH
    ensures DeploymentName(p, c, hash) == DeploymentName(p, d, hash) <==> c == d || Confused(p, c, d) || Confused(p, d, c)
  {
    if Hashed(p, c) && Hashed(p, d) {
      HashedCollideIff(p, c, d, hash);
    } else if Hashed(p, c) {
      HashedIsNotUnhashed(p, c, d, hash);
    } else if Hashed(p, d) {
      HashedIsNotUnhashed(p, d, c, hash);
    } else {
      UnhashedCollideIff(p, c, d, hash);
    }
  }

  // What a name is: the long one if that has at most 250 characters, else the short one if that has,
  // and else 245 characters, the first 180 of the short one and the digest of the long one.
  lemma NameIsOfThreeKinds(p: Parts, c: string, hash: string -> string)
    requires |hash(LongName(p, c))| == 64
    ensures var name := DeploymentName(p, c, hash);
            && |name| <= 250
            && (Long(p, c) <==> |p.binding| + |p.application| + |p.environment| + |c| + 3 <= 250)
            && (Long(p, c) ==> name == LongName(p, c))
            && (Short(p, c) <==> !Long(p, c) && |p.binding| + |c| + 1 <= 250)
            && (Short(p, c) ==> name == ShortName(p, c))
            && (Hashed(p, c) ==> |name| == 245 && name[..180] == ShortName(p, c)[..180] && name[180] == '-'
                                 && name[181..] == hash(LongName(p, c)))
  {
  }

  // It happens: with a binding name of 241 to 244 characters, components "c" and "a-e-c" of
  // application "a" and environment "e" share a name.
  lemma NamesCollide(binding: string, hash: string -> string)
    requires 241 <= |binding| <= 244
    ensures var p := Parts(binding, "a", "e"); DeploymentName(p, "c", hash) == DeploymentName(p, "a-e-c", hash)
  {
    var p := Parts(binding, "a", "e");
    assert "a" + "-" + "e" + "-" + "c" == "a-e-c";
    UnhashedCollideIff(p, "c", "a-e-c", hash);
  }

  // Names of different bindings can be the same, too: "x-a-e-c-d" is the name both for binding "x" and
  // for binding "x-a".
  lemma NamesCollideAcross(x: string, a: string, e: string, c: string, d: string, hash: string -> string)
    requires |x| + |a| + |e| + |c| + |d| + 4 <= MAX_NAME_LENGTH
    ensures DeploymentName(Parts(x, a, e), c + "-" + d, hash) == DeploymentName(Parts(x + "-" + a, e, c), d, hash)
  {
    assert LongName(Parts(x, a, e), c + "-" + d) == LongName(Parts(x + "-" + a, e, c), d);
  }
}
