/** Addresses, scopes and interfaces of the discovery layer, with their orders. */
module DiscoveryTypes {
  import opened Common
  import opened BoundedSelection
  import opened ByteOrder

  const MAX_SCOPES := 32

  datatype Family = Ipv4 | Ipv6

  /** An address by its family and its encoded bytes, which are all that its comparisons read. */
  datatype Address = Address(family: Family, bytes: seq<u8>)

  function AddressSize(family: Family): nat {
    if family == Ipv4 then 4 else 16
  }

  type IpAddress = a: Address | |a.bytes| == AddressSize(a.family) witness Address(Ipv4, [0, 0, 0, 0])

  datatype Scope = Scope(generation: u64, family: Family)

  function FamilyRank(family: Family): nat {
    if family == Ipv4 then 4 else 6
  }

  predicate AddressLess(a: Address, b: Address) {
    if a.family != b.family then FamilyRank(a.family) < FamilyRank(b.family) else BytesLess(a.bytes, b.bytes)
  }

  predicate ScopeLess(a: Scope, b: Scope) {
    if a.generation != b.generation then a.generation < b.generation
    else FamilyRank(a.family) < FamilyRank(b.family)
  }

  predicate SameScope(a: Scope, b: Scope) {
    a == b
  }

  /** Addresses are totally ordered. */
  lemma AddressOrder()
    ensures forall a: Address :: !AddressLess(a, a)
    ensures forall a: Address, b: Address :: a == b || AddressLess(a, b) || AddressLess(b, a)
    ensures forall a: Address, b: Address, c: Address :: AddressLess(a, b) && AddressLess(b, c) ==> AddressLess(a, c)
  {
    forall a: Address ensures !AddressLess(a, a) {
      BytesTotal(a.bytes, a.bytes);
    }
    forall a: Address, b: Address ensures a == b || AddressLess(a, b) || AddressLess(b, a) {
      BytesTotal(a.bytes, b.bytes);
    }
    forall a: Address, b: Address, c: Address | AddressLess(a, b) && AddressLess(b, c) ensures AddressLess(a, c) {
      if a.family == b.family == c.family {
        BytesTransitive(a.bytes, b.bytes, c.bytes);
      }
    }
  }

  lemma ScopeOrder()
    ensures Ordering(ScopeLess, SameScope)
  {
  }

  /** The scopes the cache installs for a list of scopes. */
  function Canonical(scopes: seq<Scope>): seq<Scope> {
    SelectFrom(scopes, MAX_SCOPES, ScopeLess, SameScope)
  }

  /** The installed scopes are the smallest distinct ones, in order; the order of the list does not matter. */
  lemma CanonicalSelects(scopes: seq<Scope>)
    ensures Selects(Canonical(scopes), Members(scopes), MAX_SCOPES, ScopeLess, SameScope)
    ensures forall other :: Members(other) == Members(scopes) ==> Canonical(other) == Canonical(scopes)
  {
    ScopeOrder();
    SelectFromSelects(scopes, MAX_SCOPES, ScopeLess, SameScope);
    forall other | Members(other) == Members(scopes) ensures Canonical(other) == Canonical(scopes) {
      SelectionOrderFree(other, scopes, MAX_SCOPES, ScopeLess, SameScope);
    }
  }

  /** `DiscoveryCache::Impl::CanonicalScopes`. */
  method CanonicalScopes(scopes: seq<Scope>) returns (result: seq<Scope>)
    ensures result == Canonical(scopes)
  {
    result := [];
    for i := 0 to |scopes|
      invariant result == Canonical(scopes[..i])
    {
      var scope := scopes[i];
      assert scopes[..i + 1][..i] == scopes[..i];
      CanonicalSelects(scopes[..i]);
      InsertIsInsert(result, scope);
      var position := LowerBound(result, scope, ScopeLess);
      if position < |result| && result[position] == scope {
        continue;
      }
      if |result| < MAX_SCOPES {
        result := InsertAt(result, position, scope);
      } else if position < |result| {
        result := InsertAt(result, position, scope);
        result := result[..|result| - 1];
      }
    }
    assert scopes[..|scopes|] == scopes;
  }

  /** Where the order alone decides the class, the position found tells whether the element is present. */
  lemma InsertIsInsert(s: seq<Scope>, x: Scope)
    requires Sorted(s, ScopeLess)
    ensures var p := LowerBound(s, x, ScopeLess);
            Insert(s, x, MAX_SCOPES, ScopeLess, SameScope) ==
              if p < |s| && s[p] == x then s else InsertNew(s, x, MAX_SCOPES, ScopeLess)
  {
    ScopeOrder();
    BinarySearchFinds(s, x, ScopeLess, SameScope);
  }
}
