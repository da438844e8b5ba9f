/** Building the state dictionaries from supplied certificates and the cache. */
module CertificateCollection {
  import opened Common
  import opened Certificates
  import opened Trustchain

  type Cache<K(==), C> = map<K, (Timestamp, C)>

  /** A cache entry is served while it is younger than the cache validity, given in seconds. */
  function Cached<K, C>(cache: Cache<K, C>, validity: int, now: Timestamp, k: K): Option<C> {
    if k in cache && now - cache[k].0 < validity * SECOND then Some(cache[k].1) else None
  }

  function Serving<K, C>(cache: Cache<K, C>, validity: int, now: Timestamp): K -> Option<C> {
    k => Cached(cache, validity, now, k)
  }

  /** Assignment in an insertion-ordered dictionary: an existing key keeps its place. */
  function Insert<K, C>(states: States<K, C>, k: K, state: CertifState<C>): States<K, C> {
    States(if k in states.at then states.order else states.order + [k], states.at[k := state])
  }

  /** The state of one supplied certificate: the cached content wins over the supplied one. */
  function MakeState<K, C>(certif: Bytes, unverified: C, key: C -> K, cached: K -> Option<C>): CertifState<C> {
    match cached(key(unverified))
    case Some(verified) => CertifState(certif, verified, true)
    case None => CertifState(certif, unverified, false)
  }

  function Collect<K, C>(certifs: seq<Bytes>, parse: Bytes -> Option<C>, key: C -> K,
                         cached: K -> Option<C>): Option<States<K, C>>
  {
    if certifs == [] then Some(States([], map[]))
    else
      var last := certifs[|certifs| - 1];
      match Collect(certifs[..|certifs| - 1], parse, key, cached)
      case None => None
      case Some(states) =>
        match parse(last)
        case None => None
        case Some(unverified) =>
          var state := MakeState(last, unverified, key, cached);
          Some(Insert(states, key(state.content), state))
  }

  lemma {:induction false} UnparsedPrefixStops<K, C>(
    certifs: seq<Bytes>, n: nat, parse: Bytes -> Option<C>, key: C -> K,
    cached: K -> Option<C>)
    requires n <= |certifs| && Collect(certifs[..n], parse, key, cached).None?
    ensures Collect(certifs, parse, key, cached).None?
    decreases |certifs| - n
  {
    if n < |certifs| {
      assert certifs[..n + 1][..n] == certifs[..n];
      UnparsedPrefixStops(certifs, n + 1, parse, key, cached);
    } else {
      assert certifs[..n] == certifs;
    }
  }

  ghost predicate KeyedBy<K(!new), C(!new)>(cached: K -> Option<C>, key: C -> K) {
    forall k :: cached(k).Some? ==> key(cached(k).value) == k
  }

  /** Two certificates of the collection that bear the same identifier are the same bytes. */
  ghost predicate OneCertificatePerId<K(!new), C>(certifs: seq<Bytes>, parse: Bytes -> Option<C>, key: C -> K) {
    forall c, d :: (c in certifs && d in certifs && parse(c).Some? && parse(d).Some?
      && key(parse(c).value) == key(parse(d).value)) ==> c == d
  }

  /** What collecting yields: one fitting state per identifier, each made from a supplied certificate. */
  lemma {:induction false} CollectedStates<K(!new), C(!new)>(
    certifs: seq<Bytes>, parse: Bytes -> Option<C>, key: C -> K,
    cached: K -> Option<C>)
    requires KeyedBy(cached, key)
    ensures var r := Collect(certifs, parse, key, cached);
      && (r.Some? <==> forall c :: c in certifs ==> parse(c).Some?)
      && (r.Some? ==>
            && StatesFit(r.value, parse, key)
            && (forall c :: c in certifs ==> key(parse(c).value) in r.value.at)
            && (forall k :: k in r.value.at ==>
                  && r.value.at[k].certif in certifs
                  && r.value.at[k] == MakeState(r.value.at[k].certif, parse(r.value.at[k].certif).value, key, cached)))
  {
    if certifs != [] {
      var init := certifs[..|certifs| - 1];
      var last := certifs[|certifs| - 1];
      assert certifs == init + [last];
      CollectedStates(init, parse, key, cached);
      if Collect(init, parse, key, cached).None? {
        var c :| c in init && parse(c).None?;
        assert c in certifs;
      } else if parse(last).Some? {
        var states := Collect(init, parse, key, cached).value;
        var state := MakeState(last, parse(last).value, key, cached);
        var r := Collect(certifs, parse, key, cached).value;
        assert r == Insert(states, key(state.content), state);
        assert key(state.content) == key(parse(last).value);
        forall k ensures k in r.order <==> k in r.at {
          assert k in states.order <==> k in states.at;
        }
      }
    }
  }

  /**
   A content is taken from the cache exactly while it was filed there less than the validity ago, and from
   the supplied certificate otherwise, to be verified again.
   */
  lemma ServedWhileYoung<K(!new), C(!new)>(certifs: seq<Bytes>, parse: Bytes -> Option<C>, key: C -> K,
                                           cache: Cache<K, C>, validity: int, now: Timestamp, k: K)
    requires forall x :: x in cache ==> key(cache[x].1) == x
    requires var r := Collect(certifs, parse, key, Serving(cache, validity, now)); r.Some? && k in r.value.at
    ensures var state := Collect(certifs, parse, key, Serving(cache, validity, now)).value.at[k];
      var young := k in cache && now < cache[k].0 + validity * 1_000_000;
      && (state.verified <==> young)
      && (young ==> state.content == cache[k].1)
      && (!young ==> parse(state.certif) == Some(state.content))
  {
    var cached := Serving(cache, validity, now);
    assert forall x :: cached(x) == Cached(cache, validity, now, x);
    CollectedStates(certifs, parse, key, cached);
  }

  /** With one certificate per identifier, the collected states do not depend on the order of supply. */
  lemma CollectIgnoresOrder<K(!new), C(!new)>(
    some: seq<Bytes>, other: seq<Bytes>, parse: Bytes -> Option<C>, key: C -> K,
    cached: K -> Option<C>)
    requires KeyedBy(cached, key) && OneCertificatePerId(some, parse, key)
    requires forall c :: c in some <==> c in other
    ensures Collect(some, parse, key, cached).Some? <==> Collect(other, parse, key, cached).Some?
    ensures Collect(some, parse, key, cached).Some? ==>
      Collect(some, parse, key, cached).value.at == Collect(other, parse, key, cached).value.at
  {
    CollectedStates(some, parse, key, cached);
    CollectedStates(other, parse, key, cached);
    if Collect(some, parse, key, cached).Some? {
      var a, b := Collect(some, parse, key, cached).value.at, Collect(other, parse, key, cached).value.at;
      forall k ensures k in a <==> k in b {
        if k in a { assert a[k].certif in other; }
        if k in b { assert b[k].certif in some; }
      }
      forall k | k in a ensures a[k] == b[k] {
        assert a[k].certif == b[k].certif;
      }
    }
  }

  /** The certificates are taken in order, and an identifier seen again replaces the earlier state. */
  method CollectStates<K(==), C>(certifs: seq<Bytes>, parse: Bytes -> Option<C>, key: C -> K, cached: K -> Option<C>)
    returns (r: Option<States<K, C>>)
    ensures r == Collect(certifs, parse, key, cached)
  {
    var states: States<K, C> := States([], map[]);
    for i := 0 to |certifs|
      invariant Collect(certifs[..i], parse, key, cached) == Some(states)
    {
      assert certifs[..i + 1][..i] == certifs[..i];
      var certif := certifs[i];
      match parse(certif)
      case None =>
        UnparsedPrefixStops(certifs, i + 1, parse, key, cached);
        return None;
      case Some(unverified) =>
        var verified := cached(key(unverified));
        if verified.Some? {
          states := Insert(states, key(verified.value), CertifState(certif, verified.value, true));
        } else {
          states := Insert(states, key(unverified), CertifState(certif, unverified, false));
        }
    }
    assert certifs[..|certifs|] == certifs;
    return Some(states);
  }
}
