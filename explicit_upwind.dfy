/** `ExplicitUpwindConvectionTerm._getWeight`
    (fipy/terms/explicitUpwindConvectionTerm.py): the weight of the parent
    upwind term, whatever it holds, with its `implicit` entry moved to
    `explicit`, so that the convection is evaluated from the old values. The
    parent's dictionary is changed in place and returned. */
module ExplicitUpwind {

  import opened TermWeights

  /** The weight dictionary the parent term builds, shared by reference. */
  class Weight {
    var roles: map<Role, Coefficients>

    constructor (roles: map<Role, Coefficients>)
      ensures this.roles == roles
    {
      this.roles := roles;
    }
  }

  /** The relabelled weight: `explicit` takes the `implicit` coefficients,
      overwriting any earlier `explicit` entry, and `implicit` is gone; every
      other role keeps its coefficients. A weight without `implicit` is
      unchanged. */
  function Relabelled(w: map<Role, Coefficients>): (r: map<Role, Coefficients>)
    ensures Implicit !in r
    ensures Implicit in w ==> Explicit in r && r[Explicit] == w[Implicit]
    ensures Implicit !in w ==> r == w
    ensures forall k :: k != Implicit && k != Explicit ==> (k in r <==> k in w)
    ensures forall k :: k in r && k != Explicit ==> r[k] == w[k]
    ensures r.Keys == if Implicit in w then w.Keys - {Implicit} + {Explicit} else w.Keys
  {
    if Implicit in w then w[Explicit := w[Implicit]] - {Implicit} else w
  }

  /** Relabelling a relabelled weight changes nothing. */
  lemma RelabelledIdempotent(w: map<Role, Coefficients>)
    ensures Relabelled(Relabelled(w)) == Relabelled(w)
  {
  }

  /** `_getWeight` on the parent's dictionary (lines 58-63): the same object,
      relabelled in place. */
  method GetWeight(parent: Weight) returns (weight: Weight)
    modifies parent
    ensures weight == parent
    ensures weight.roles == Relabelled(old(parent.roles))
  {
    weight := parent;
    if Implicit in weight.roles {
      weight.roles := weight.roles[Explicit := weight.roles[Implicit]];
      weight.roles := weight.roles - {Implicit};
    }
  }
}
