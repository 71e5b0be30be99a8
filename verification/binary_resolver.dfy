/** Binary resolvers: the strategy that yields the engine archive for a platform, with the
    default implementation that reads it from the bundled resources, and the Java equality
    that decides which resolvers share one entry of the preparer's cache. */
module BinaryResolver {
  import opened Outcomes
  import opened Text
  import opened Archives

  /** What getPostgresBinary(system, machineHardware) produces: a stream, null, or an IOException. */
  datatype Answer = Stream(archive: Archive) | NoStream | ReadError(message: string)

  /** A resolver object: an instance of the bundled resolver, or of some other implementation
      that keeps Object's identity equality. `identity` is the object's identity. */
  datatype Resolver =
    | Bundled(identity: nat)
    | Custom(identity: nat, lookup: (string, string) -> Answer)

  /** A Java object as equals(Object) sees it: null, or an instance of a runtime class. */
  datatype JavaObject = Null | Instance(className: string, identity: nat)

  const BundledClass := "fr.avereyl.tools.postgres.BundledPostgresBinaryResolver"
  const CustomClass := "a custom PostgresBinaryResolver"

  function AsObject(r: Resolver): JavaObject {
    match r
    case Bundled(id) => Instance(BundledClass, id)
    case Custom(id, _) => Instance(CustomClass, id)
  }

  /** The resource the bundled resolver asks for. */
  function ResourceName(system: string, machineHardware: string): (name: string)
    ensures StartsWith(name, "/postgresql-") && EndsWith(name, ".txz")
    ensures |name| == 17 + |system| + |machineHardware|
  {
    "/postgresql-" + system + "-" + machineHardware + ".txz"
  }

  lemma {:induction false} SplitAtFirst(a: string, b: string, a': string, b': string, c: char)
    requires c !in a && c !in a'
    requires a + [c] + b == a' + [c] + b'
    ensures a == a' && b == b'
  {
    var s := a + [c] + b;
    SplitAfterPiece(a, c, b);
    SplitAfterPiece(a', c, b');
    assert a == Split(s, c)[0] == a';
    assert b == s[|a| + 1..] == b';
  }

  /** Platforms whose system name has no dash ask for different resources. */
  lemma ResourceNameInjective(system: string, hw: string, system': string, hw': string)
    requires '-' !in system && '-' !in system'
    requires ResourceName(system, hw) == ResourceName(system', hw')
    ensures system == system' && hw == hw'
  {
    var n := ResourceName(system, hw);
    var middle := system + "-" + hw;
    var middle' := system' + "-" + hw';
    assert middle == n[12..|n| - 4];
    assert middle' == n[12..|n| - 4];
    SplitAtFirst(system, hw, system', hw', '-');
  }

  /** getPostgresBinary(system, machineHardware): the bundled resolver looks the resource up
      on the class path (a missing resource gives null); another resolver answers for itself. */
  function GetPostgresBinary(r: Resolver, classpath: map<string, Archive>, system: string,
                             machineHardware: string): (a: Answer)
    ensures r.Bundled? ==> (a.NoStream? <==> ResourceName(system, machineHardware) !in classpath)
    ensures r.Bundled? && a.Stream? ==> a.archive == classpath[ResourceName(system, machineHardware)]
    ensures r.Bundled? ==> !a.ReadError?
  {
    match r
    case Bundled(_) =>
      var name := ResourceName(system, machineHardware);
      if name in classpath then Stream(classpath[name]) else NoStream
    case Custom(_, lookup) => lookup(system, machineHardware)
  }

  /** BundledPostgresBinaryResolver.equals(o), called on `self`: the same object, or any
      non-null object of exactly the same runtime class. */
  function BundledEquals(self: JavaObject, o: JavaObject): (eq: bool)
    requires self.Instance?
    ensures o == self ==> eq
    ensures o.Null? ==> !eq
    ensures o.Instance? ==> (eq <==> o.className == self.className)
  {
    if o == self then true else o != Null && o.className == self.className
  }

  /** BundledPostgresBinaryResolver.hashCode(): the hash code of the runtime class. */
  function BundledHashCode(self: JavaObject, classHash: string -> int): int
    requires self.Instance?
  {
    classHash(self.className)
  }

  /** Any two bundled resolvers are equal and hash alike; a bundled resolver equals no
      object of another class. */
  lemma BundledResolversAllEqual(i: nat, j: nat, other: JavaObject, classHash: string -> int)
    requires other.Instance? ==> other.className != BundledClass
    ensures BundledEquals(Instance(BundledClass, i), Instance(BundledClass, j))
    ensures BundledHashCode(Instance(BundledClass, i), classHash) ==
            BundledHashCode(Instance(BundledClass, j), classHash)
    ensures !BundledEquals(Instance(BundledClass, i), other)
  {
  }

  /** equals is symmetric and transitive, and equal objects have equal hash codes. */
  lemma BundledEqualsIsEquivalence(a: JavaObject, b: JavaObject, c: JavaObject, classHash: string -> int)
    requires a.Instance? && b.Instance? && c.Instance?
    ensures BundledEquals(a, a)
    ensures BundledEquals(a, b) == BundledEquals(b, a)
    ensures BundledEquals(a, b) && BundledEquals(b, c) ==> BundledEquals(a, c)
    ensures BundledEquals(a, b) ==> BundledHashCode(a, classHash) == BundledHashCode(b, classHash)
  {
  }

  /** The key under which the preparer's HashMap files a resolver. */
  datatype CacheKey = BundledKey | IdentityKey(identity: nat)

  /** Java equality between two resolver objects: the bundled class's equals for a bundled
      receiver, Object identity for any other resolver. */
  function ResolverEquals(a: Resolver, b: Resolver): bool {
    match a
    case Bundled(_) => BundledEquals(AsObject(a), AsObject(b))
    case Custom(id, _) => AsObject(b) == Instance(CustomClass, id)
  }

  /** The key under which the preparer's cache files a resolver. */
  function KeyOf(r: Resolver): CacheKey {
    match r
    case Bundled(_) => BundledKey
    case Custom(id, _) => IdentityKey(id)
  }

  /** Two resolvers share a cache entry exactly when Java calls them equal: every bundled
      resolver lands on one entry, any other resolver on an entry of its own. */
  lemma CacheKeyMatchesEquals(a: Resolver, b: Resolver)
    ensures KeyOf(a) == KeyOf(b) <==> ResolverEquals(a, b)
  {
  }
}
