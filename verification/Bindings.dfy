/** Authorized verifier bindings: one per claim, stamped with a hash by the act of binding. */
module Bindings {
  import opened Digests
  import opened Ordered
  import opened Prelude

  datatype Binding = Binding(verifierRef: string, requirement: string, selector: Option<string>, hash: Digest)

  /** What a human writes for one claim. */
  datatype Entry = Entry(verifierRef: string, requirement: string, selector: Option<string>)

  type Bound = map<string, Binding>

  function BindingHash(claim: string, e: Entry): Digest {
    OfBinding(claim, e.verifierRef, e.requirement, e.selector.GetOr(""))
  }

  function Stamp(claim: string, e: Entry): Binding {
    Binding(e.verifierRef, e.requirement, e.selector, BindingHash(claim, e))
  }

  /** Every binding carries the hash of what it authorizes. */
  ghost predicate Stamped(bound: Bound) {
    forall c :: c in bound ==>
      bound[c] == Stamp(c, Entry(bound[c].verifierRef, bound[c].requirement, bound[c].selector))
  }

  /** No binding lacks a hash; an entry written by hand may. */
  ghost predicate Hashed(bound: Bound) {
    forall c :: c in bound ==> bound[c].hash != Empty
  }

  lemma StampedIsHashed(bound: Bound)
    ensures Stamped(bound) ==> Hashed(bound)
  {
    if Stamped(bound) {
      forall c | c in bound ensures bound[c].hash != Empty {
        RebindChangesHash(c, Entry(bound[c].verifierRef, bound[c].requirement, bound[c].selector), Entry("", "", None));
      }
    }
  }

  /** The reviewed file first, then legacy files for the claims it does not mention. */
  function LoadAll(reviewed: Bound, legacy: Bound): Bound {
    legacy + reviewed
  }

  /** The bindings with these claims of a reviewed file stamped over them. */
  function Overlaid(bound: Bound, incoming: map<string, Entry>, claims: set<string>): Bound {
    map c | c in bound.Keys + (claims * incoming.Keys) ::
      if c in claims && c in incoming then Stamp(c, incoming[c]) else bound[c]
  }

  lemma OverlayNothing(bound: Bound, incoming: map<string, Entry>)
    ensures Overlaid(bound, incoming, {}) == bound
    ensures incoming == map[] ==> Overlaid(bound, incoming, incoming.Keys) == bound
  {
  }

  lemma OverlayOne(bound: Bound, incoming: map<string, Entry>, claims: set<string>, c: string)
    requires c in incoming
    ensures Overlaid(bound, incoming, claims + {c}) == Overlaid(bound, incoming, claims)[c := Stamp(c, incoming[c])]
  {
  }

  /** A bulk authorization leaves every binding stamped. */
  lemma OverlaidStamped(bound: Bound, incoming: map<string, Entry>, claims: set<string>)
    requires Stamped(bound)
    ensures Stamped(Overlaid(bound, incoming, claims))
  {
  }

  class BindingFile {
    var bindings: Bound

    constructor ()
      ensures bindings == map[]
    {
      bindings := map[];
    }

    method Authorize(claim: string, e: Entry) returns (b: Binding)
      modifies this
      ensures b == Stamp(claim, e) && bindings == old(bindings)[claim := b]
      ensures old(Stamped(bindings)) ==> Stamped(bindings)
    {
      b := Stamp(claim, e);
      bindings := bindings[claim := b];
    }

    /** Every entry of a reviewed file, in one act. An empty file is an error. */
    method AuthorizeFromFile(incoming: map<string, Entry>) returns (ok: bool)
      modifies this
      ensures ok <==> incoming != map[]
      ensures bindings == Overlaid(old(bindings), incoming, incoming.Keys)
    {
      if incoming == map[] {
        OverlayNothing(bindings, incoming);
        return false;
      }
      var claims := Listing(incoming.Keys);
      ListingExact(incoming.Keys);
      OverlayNothing(bindings, incoming);
      ghost var done: set<string> := {};
      for i := 0 to |claims|
        invariant done == set c | c in claims[..i]
        invariant bindings == Overlaid(old(bindings), incoming, done)
      {
        var c := claims[i];
        assert c in claims && claims[..i + 1] == claims[..i] + [c];
        OverlayOne(old(bindings), incoming, done, c);
        bindings := bindings[c := Stamp(c, incoming[c])];
        done := done + {c};
      }
      assert claims[..|claims|] == claims;
      assert done == incoming.Keys;
      return true;
    }
  }

  /** A rebind is seen exactly when it changes what is authorized; an absent selector and an
      empty one count as the same. */
  lemma RebindChangesHash(claim: string, a: Entry, b: Entry)
    ensures BindingHash(claim, a) != Empty
    ensures BindingHash(claim, a) == BindingHash(claim, b) <==>
              a.verifierRef == b.verifierRef && a.requirement == b.requirement
              && a.selector.GetOr("") == b.selector.GetOr("")
  {
  }

  lemma LoadAllStamped(reviewed: Bound, legacy: Bound)
    requires Stamped(reviewed) && Stamped(legacy)
    ensures Stamped(LoadAll(reviewed, legacy))
    ensures forall c :: c in reviewed ==> c in LoadAll(reviewed, legacy) && LoadAll(reviewed, legacy)[c] == reviewed[c]
  {
  }
}
