/** The in-memory branch of the cache service: a dictionary from key to value
    that `get`/`set`/`delete`/`clear` read and update, wildcard invalidation
    through a one-star pattern, cache keys built from a call's arguments, and
    the read-through `cached` wrapper. */
module CacheService {
  import opened Wrappers
  import opened PyText

  /** A cached Python value, or `None`; `dict.get` answers `None` for a
      missing key, so a stored `None` and a missing key look the same. */
  datatype PyValue<T> = PyNone | Py(value: T)

  /** `memory_cache.get(key)`. */
  function Lookup<T>(entries: map<string, PyValue<T>>, key: string): PyValue<T> {
    if key in entries then entries[key] else PyNone
  }

  // ---------------------------------------------------------- patterns

  /** `_match_pattern`: without `*` the key must equal the pattern; with one
      `*` the key must start with what precedes it and end with what follows
      it; with more than one `*` nothing matches. */
  function MatchPattern(key: string, pattern: string): (r: bool)
    ensures '*' !in pattern ==> (r <==> key == pattern)
    ensures multiset(pattern)['*'] >= 2 ==> !r
  {
    SplitCount(pattern, '*');
    if '*' !in pattern then key == pattern
    else
      var parts := Split(pattern, '*');
      if |parts| == 2 then StartsWith(key, parts[0]) && EndsWith(key, parts[1])
      else false
  }

  /** A one-star pattern is a prefix test and a suffix test. */
  lemma OneStarMatch(key: string, prefix: string, suffix: string)
    requires '*' !in prefix && '*' !in suffix
    ensures MatchPattern(key, prefix + "*" + suffix) <==>
              StartsWith(key, prefix) && EndsWith(key, suffix)
  {
    var pattern := prefix + "*" + suffix;
    assert pattern == Join('*', [prefix, suffix]);
    SplitJoinRoundTrip('*', [prefix, suffix]);
    assert pattern[|prefix|] == '*';
  }

  /** The prefix and the suffix may overlap: "ab" matches "ab*b". */
  lemma OverlappingPrefixAndSuffix()
    ensures MatchPattern("ab", "ab*b")
  {
    OneStarMatch("ab", "ab", "b");
    assert "ab" + "*" + "b" == "ab*b";
  }

  /** The keys `invalidate_pattern` removes. */
  function MatchingKeys<T>(entries: map<string, PyValue<T>>, pattern: string): set<string> {
    set k | k in entries && MatchPattern(k, pattern)
  }

  /** The cache after `invalidate_pattern`. */
  function WithoutMatching<T>(entries: map<string, PyValue<T>>, pattern: string): map<string, PyValue<T>> {
    map k | k in entries && !MatchPattern(k, pattern) :: entries[k]
  }

  /** Invalidation removes every matching key and nothing else, the count
      is the number of entries that went away, and a second invalidation with
      the same pattern removes nothing. */
  lemma InvalidationLaws<T>(entries: map<string, PyValue<T>>, pattern: string)
    ensures forall k :: k in WithoutMatching(entries, pattern) ==> !MatchPattern(k, pattern)
    ensures forall k :: k in entries && !MatchPattern(k, pattern) ==>
              Lookup(WithoutMatching(entries, pattern), k) == Lookup(entries, k)
    ensures |entries| == |WithoutMatching(entries, pattern)| + |MatchingKeys(entries, pattern)|
    ensures MatchingKeys(WithoutMatching(entries, pattern), pattern) == {}
  {
    var kept := WithoutMatching(entries, pattern);
    var gone := MatchingKeys(entries, pattern);
    assert entries.Keys == kept.Keys + gone;
    assert kept.Keys * gone == {};
  }

  // ---------------------------------------------------------- keys

  /** A call argument: a `str`/`int`/`float`/`bool` written as its `str()`
      text, or any other object, known by its `str()` text, which is hashed. */
  datatype Arg = Scalar(text: string) | Other(repr: string)

  /** The first eight characters of the hex digest of `repr`. The digest
      function (md5 in the source) is a parameter. */
  function ShortDigest(digest: string -> string, repr: string): (h: string)
    ensures |h| <= 8
  {
    var full := digest(repr);
    if |full| <= 8 then full else full[..8]
  }

  function ArgText(a: Arg, digest: string -> string): string {
    match a
    case Scalar(text) => text
    case Other(repr) => ShortDigest(digest, repr)
  }

  function ArgParts(args: seq<Arg>, digest: string -> string): (parts: seq<string>)
    ensures |parts| == |args|
    ensures forall i :: 0 <= i < |args| ==> parts[i] == ArgText(args[i], digest)
  {
    if args == [] then [] else [ArgText(args[0], digest)] + ArgParts(args[1..], digest)
  }

  /** A non-empty set of names has a least one. */
  lemma {:induction false} LeastNameExists(names: set<string>)
    requires names != {}
    ensures exists m :: m in names && forall n :: n in names ==> StrLe(m, n)
    decreases names
  {
    var x :| x in names;
    var rest := names - {x};
    if rest == {} {
      forall n | n in names
        ensures StrLe(x, n)
      {
        assert n !in rest;
        StrLeTotal(x, x);
      }
    } else {
      LeastNameExists(rest);
      var m :| m in rest && forall n :: n in rest ==> StrLe(m, n);
      StrLeTotal(x, m);
      if StrLe(x, m) {
        StrLeTransitiveAll(x, m, rest);
        forall n | n in names
          ensures StrLe(x, n)
        {
          if n == x {
            StrLeTotal(x, x);
          } else {
            assert n in rest;
          }
        }
      } else {
        forall n | n in names
          ensures StrLe(m, n)
        {
          if n != x {
            assert n in rest;
          }
        }
        assert m in names;
      }
    }
  }

  /** The least name of a non-empty set of names. */
  function LeastName(names: set<string>): (m: string)
    requires names != {}
    ensures m in names
    ensures forall n :: n in names ==> StrLe(m, n)
  {
    LeastNameExists(names);
    StrLeAntisymmetric();
    var m :| m in names && forall n :: n in names ==> StrLe(m, n);
    m
  }

  lemma StrLeAntisymmetric()
    ensures forall a, b :: StrLe(a, b) && StrLe(b, a) ==> a == b
  {
    forall a, b | StrLe(a, b) && StrLe(b, a)
      ensures a == b
    {
      StrLeTotal(a, b);
    }
  }

  lemma StrLeTransitiveAll(x: string, m: string, names: set<string>)
    requires StrLe(x, m)
    requires forall n :: n in names ==> StrLe(m, n)
    ensures forall n :: n in names ==> StrLe(x, n)
  {
    forall n | n in names
      ensures StrLe(x, n)
    {
      StrLeTransitive(x, m, n);
    }
  }

  /** `sorted(kwargs)`: the names in ascending order, each once. */
  function SortedNames(names: set<string>): (r: seq<string>)
    ensures |r| == |names|
    ensures forall n :: n in r <==> n in names
    ensures forall i, j :: 0 <= i < j < |r| ==> StrLe(r[i], r[j]) && r[i] != r[j]
    decreases names
  {
    if names == {} then []
    else
      var m := LeastName(names);
      var rest := SortedNames(names - {m});
      var r := [m] + rest;
      assert forall i :: 1 <= i < |r| ==> r[i] == rest[i - 1];
      r
  }

  function KwargParts(names: seq<string>, kwargs: map<string, Arg>, digest: string -> string): (parts: seq<string>)
    requires forall n :: n in names ==> n in kwargs
    ensures |parts| == |names|
    ensures forall i :: 0 <= i < |names| ==>
              parts[i] == names[i] + "=" + ArgText(kwargs[names[i]], digest)
  {
    if names == [] then []
    else [names[0] + "=" + ArgText(kwargs[names[0]], digest)] + KwargParts(names[1..], kwargs, digest)
  }

  /** The parts `_generate_cache_key` joins. */
  function KeyParts(prefix: string, args: seq<Arg>, kwargs: map<string, Arg>, digest: string -> string): (parts: seq<string>)
    ensures |parts| == 1 + |args| + |kwargs.Keys|
  {
    [prefix] + ArgParts(args, digest) + KwargParts(SortedNames(kwargs.Keys), kwargs, digest)
  }

  /** The prefix comes first, then each positional argument in order, then
      each keyword argument as `name=value`, by ascending name whatever order
      the caller wrote them in. */
  lemma KeyPartsLayout(prefix: string, args: seq<Arg>, kwargs: map<string, Arg>, digest: string -> string)
    ensures KeyParts(prefix, args, kwargs, digest)[0] == prefix
    ensures forall i :: 0 <= i < |args| ==>
              KeyParts(prefix, args, kwargs, digest)[1 + i] == ArgText(args[i], digest)
    ensures var names := SortedNames(kwargs.Keys);
            forall i :: 0 <= i < |names| ==>
              KeyParts(prefix, args, kwargs, digest)[1 + |args| + i]
                == names[i] + "=" + ArgText(kwargs[names[i]], digest)
  {
    var parts := KeyParts(prefix, args, kwargs, digest);
    var names := SortedNames(kwargs.Keys);
    var positional := ArgParts(args, digest);
    var keyword := KwargParts(names, kwargs, digest);
    assert parts == [prefix] + positional + keyword;
    forall i | 0 <= i < |args|
      ensures parts[1 + i] == ArgText(args[i], digest)
    {
      assert parts[1 + i] == positional[i];
    }
    forall i | 0 <= i < |names|
      ensures parts[1 + |args| + i] == names[i] + "=" + ArgText(kwargs[names[i]], digest)
    {
      assert parts[1 + |args| + i] == keyword[i];
    }
  }

  /** `_generate_cache_key(prefix, *args, **kwargs)`. */
  function GenerateCacheKey(prefix: string, args: seq<Arg>, kwargs: map<string, Arg>, digest: string -> string): string {
    Join(':', KeyParts(prefix, args, kwargs, digest))
  }

  /** A key can be taken apart at its colons again when no part contains
      one; so calls with different argument texts get different keys. */
  lemma KeyRecoversParts(prefix: string, args: seq<Arg>, kwargs: map<string, Arg>, digest: string -> string)
    requires forall p :: p in KeyParts(prefix, args, kwargs, digest) ==> ':' !in p
    ensures Split(GenerateCacheKey(prefix, args, kwargs, digest), ':') == KeyParts(prefix, args, kwargs, digest)
  {
    var parts := KeyParts(prefix, args, kwargs, digest);
    assert forall i :: 0 <= i < |parts| ==> parts[i] in parts;
    SplitJoinRoundTrip(':', parts);
  }

  // ---------------------------------------------------------- the cache

  class MemoryCache<T> {
    /** `memory_cache`. */
    var entries: map<string, PyValue<T>>

    constructor()
      ensures entries == map[]
    {
      entries := map[];
    }

    /** `get`: the stored value, or `None` when the key is absent. */
    method Get(key: string) returns (r: PyValue<T>)
      ensures key !in entries ==> r == PyNone
      ensures key in entries ==> r == entries[key]
    {
      if key in entries {
        r := entries[key];
      } else {
        r := PyNone;
      }
    }

    /** `set`: stores the value (the time-to-live is not applied in memory)
        and reports success. */
    method Set(key: string, value: PyValue<T>, ttl: Option<int>) returns (ok: bool)
      modifies this
      ensures entries == old(entries)[key := value]
      ensures Lookup(entries, key) == value
      ensures forall k :: k != key ==> Lookup(entries, k) == old(Lookup(entries, k))
      ensures ok
    {
      entries := entries[key := value];
      ok := true;
    }

    /** `delete`: removes the key if present and reports success either way. */
    method Delete(key: string) returns (ok: bool)
      modifies this
      ensures entries == old(entries) - {key}
      ensures Lookup(entries, key) == PyNone
      ensures forall k :: k != key ==> Lookup(entries, k) == old(Lookup(entries, k))
      ensures ok
    {
      entries := entries - {key};
      ok := true;
    }

    /** `clear`: empties the cache. */
    method Clear() returns (ok: bool)
      modifies this
      ensures entries == map[]
      ensures forall k :: Lookup(entries, k) == PyNone
      ensures ok
    {
      entries := map[];
      ok := true;
    }

    /** `invalidate_pattern`: collects the matching keys, pops them one by
        one and answers how many there were. */
    method InvalidatePattern(pattern: string) returns (count: nat)
      modifies this
      ensures entries == WithoutMatching(old(entries), pattern)
      ensures count == |MatchingKeys(old(entries), pattern)|
    {
      var toDelete := MatchingKeys(entries, pattern);
      ghost var before := entries;
      var remaining := toDelete;
      while remaining != {}
        invariant remaining <= toDelete
        invariant entries == map k | k in before && k !in toDelete - remaining :: before[k]
        decreases |remaining|
      {
        var key :| key in remaining;
        entries := entries - {key};
        remaining := remaining - {key};
      }
      count := |toDelete|;
    }
  }

  /** The `cached` wrapper around a pure function `f`: with no cache, call
      `f`; otherwise answer a stored non-`None` value, or call `f` and store
      its result under the generated key. */
  method Cached<T>(cache: MemoryCache?<T>, prefix: string, ttl: int,
                   args: seq<Arg>, kwargs: map<string, Arg>,
                   f: (seq<Arg>, map<string, Arg>) -> PyValue<T>,
                   digest: string -> string)
    returns (r: PyValue<T>)
    modifies cache
    ensures cache == null ==> r == f(args, kwargs)
    ensures cache != null ==>
              var key := GenerateCacheKey(prefix, args, kwargs, digest);
              var stored := old(Lookup(cache.entries, key));
              if stored.Py? then r == stored && cache.entries == old(cache.entries)
              else r == f(args, kwargs) && cache.entries == old(cache.entries)[key := r]
    // Cache consistency: when whatever is stored under the key is what `f`
    // gives, the wrapper answers what `f` gives.
    ensures cache != null &&
            old(Lookup(cache.entries, GenerateCacheKey(prefix, args, kwargs, digest))) in {PyNone, f(args, kwargs)}
            ==> r == f(args, kwargs)
  {
    if cache == null {
      r := f(args, kwargs);
      return;
    }
    var key := GenerateCacheKey(prefix, args, kwargs, digest);
    var hit := cache.Get(key);
    if hit.Py? {
      r := hit;
      return;
    }
    r := f(args, kwargs);
    var _ := cache.Set(key, r, Some(ttl));
  }
}
