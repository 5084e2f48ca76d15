/**
 * The response codes a server may return (the ServerResponse enum): eight
 * constants numbered by a static byte counter in declaration order, a
 * byte-to-constant cache, and a total lookup that answers UNKNOWN for a
 * byte it does not know.
 */
module ServerResponse {

  /** Java's signed byte. */
  newtype JavaByte = x: int | -128 <= x < 128

  /** `b++` on a byte: the successor, taken modulo 256 back into the byte range. */
  function Increment(b: JavaByte): (r: JavaByte)
    ensures (r as int - b as int - 1) % 256 == 0
  {
    if b == 127 then -128 else b + 1
  }

  datatype Response =
    | Unknown
    | RequiresAuthentication
    | AuthenticationAttempted
    | AlreadyAuthenticated
    | Success
    | InvalidUuid
    | ChannelException
    | InvalidChannel

  /** values(): the constants in declaration order. */
  function Values(): (vs: seq<Response>)
    ensures |vs| == 8
  {
    [Unknown, RequiresAuthentication, AuthenticationAttempted, AlreadyAuthenticated,
     Success, InvalidUuid, ChannelException, InvalidChannel]
  }

  /** Every constant is declared exactly once. */
  lemma ValuesListsEachOnce()
    ensures forall r: Response :: r in Values()
    ensures forall i, j :: 0 <= i < j < |Values()| ==> Values()[i] != Values()[j]
  {
    forall r: Response ensures r in Values() {
      assert Values()[GetValue(r)] == r;
    }
  }

  /** getValue(): the code a constant received, which is its declaration position. */
  function GetValue(r: Response): (b: JavaByte)
    ensures 0 <= b < 8 && Values()[b] == r
  {
    match r
    case Unknown => 0
    case RequiresAuthentication => 1
    case AuthenticationAttempted => 2
    case AlreadyAuthenticated => 3
    case Success => 4
    case InvalidUuid => 5
    case ChannelException => 6
    case InvalidChannel => 7
  }

  /** The constant at position i of values() has code i. */
  lemma PositionIsCode(i: int)
    requires 0 <= i < 8
    ensures GetValue(Values()[i]) as int == i
  {
  }

  /** The cache after class initialisation: each code maps to its constant. */
  function Cache(): (c: map<JavaByte, Response>)
    ensures forall b :: b in c <==> 0 <= b < 8
  {
    map b: JavaByte | 0 <= b < 8 :: Values()[b]
  }

  /** getServerResponse(b): the constant whose code is b, and UNKNOWN for any other byte. */
  function GetServerResponse(b: JavaByte): (r: Response)
    ensures 0 <= b < 8 ==> GetValue(r) == b
    ensures !(0 <= b < 8) ==> r == Unknown
  {
    if b !in Cache() then Unknown else Cache()[b]
  }

  /** getServerResponse(r.getValue()) == r for every constant. */
  lemma LookupOfValue(r: Response)
    ensures GetServerResponse(GetValue(r)) == r
  {
  }

  /** Distinct constants have distinct codes, so the cache keeps all eight entries. */
  lemma CodesDistinct()
    ensures forall r1, r2 :: GetValue(r1) == GetValue(r2) ==> r1 == r2
    ensures |Cache()| == 8
    ensures forall r :: GetValue(r) in Cache() && Cache()[GetValue(r)] == r
  {
    var c := Cache();
    assert c.Keys == {0, 1, 2, 3, 4, 5, 6, 7};
  }

  /** The lookup answers UNKNOWN exactly for UNKNOWN's own code and for unknown bytes. */
  lemma UnknownExactly(b: JavaByte)
    ensures GetServerResponse(b) == Unknown <==> b == 0 || !(0 <= b < 8)
  {
    if 0 <= b < 8 {
      assert GetValue(GetServerResponse(b)) == b;
    }
  }

  /**
   * The enum's static state: the counter `b`, each constant's responseCode,
   * and the cache.
   */
  class ResponseTable {
    var b: JavaByte
    var codes: map<Response, JavaByte>
    var cache: map<JavaByte, Response>

    /** The state once class initialisation has finished. */
    predicate Initialized()
      reads this
    {
      && (forall r :: r in codes && codes[r] == GetValue(r))
      && cache == Cache()
    }

    /** getNextByte(): returns the counter and post-increments it. */
    method GetNextByte() returns (v: JavaByte)
      modifies this
      ensures v == old(b) && b == Increment(old(b))
      ensures codes == old(codes) && cache == old(cache)
    {
      v := b;
      b := Increment(b);
    }

    /**
     * Class initialisation, in textual order: each constant takes the next
     * counter value as it is created (the counter still holds its default
     * 0), then the initialiser `b = 0` runs, then the static block fills
     * the cache from values().
     */
    constructor Initialize()
      ensures Initialized()
      ensures b == 0
    {
      b := 0;
      codes := map[];
      cache := map[];
      new;
      DeclareConstants();
      b := 0;
      FillCache();
    }

    /** The constant declarations: each constant in order takes getNextByte() as its code. */
    method DeclareConstants()
      requires b == 0 && codes == map[]
      modifies this
      ensures forall r :: r in codes && codes[r] == GetValue(r)
      ensures b == 8 && cache == old(cache)
    {
      var vs := Values();
      var i := 0;
      while i < |vs|
        invariant 0 <= i <= |vs|
        invariant b as int == i
        invariant forall k :: 0 <= k < i ==> vs[k] in codes
        invariant forall r :: r in codes ==> GetValue(r) as int < i && codes[r] == GetValue(r)
        invariant cache == old(cache)
      {
        var code := GetNextByte();
        codes := codes[vs[i] := code];
        i := i + 1;
      }
      forall r ensures r in codes {
        assert vs[GetValue(r)] == r;
      }
    }

    /** The static block: cache.put(response.getValue(), response) for every constant, in order. */
    method FillCache()
      requires forall r :: r in codes && codes[r] == GetValue(r)
      requires cache == map[]
      modifies this
      ensures cache == Cache()
      ensures b == old(b) && codes == old(codes)
    {
      var vs := Values();
      var i := 0;
      while i < |vs|
        invariant 0 <= i <= |vs|
        invariant forall c :: c in cache <==> 0 <= c as int < i
        invariant forall c :: c in cache ==> cache[c] == vs[c]
        invariant b == old(b) && codes == old(codes)
      {
        PositionIsCode(i);
        cache := cache[codes[vs[i]] := vs[i]];
        i := i + 1;
      }
      assert cache.Keys == Cache().Keys;
    }

    /** getServerResponse(b) against the cache. */
    method Lookup(x: JavaByte) returns (r: Response)
      requires Initialized()
      ensures r == GetServerResponse(x)
    {
      if x !in cache {
        return Unknown;
      }
      return cache[x];
    }

    /** getValue() on a constant: its stored responseCode. */
    method Value(r: Response) returns (v: JavaByte)
      requires Initialized()
      ensures v == GetValue(r)
    {
      v := codes[r];
    }
  }
}
