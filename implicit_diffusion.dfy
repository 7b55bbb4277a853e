/** `ImplicitDiffusionTerm._getWeight` (fipy/terms/implicitDiffusionTerm.py):
    the stencil every face contributes to the diffusion matrix. The flux
    through a face between cells 1 and 2 is proportional to `phi_2 - phi_1`,
    so each cell's row holds -1 on its diagonal and +1 off it, and the whole
    weight is evaluated implicitly. */
module ImplicitDiffusion {
  import opened TermWeights
  import MeshVariables

  /** The weight returned for every mesh: implicit only, each cell's row
      summing to zero (a uniform field has no diffusive flux), and the two
      cells treated alike. */
  function Weight(mesh: MeshVariables.Mesh): (w: map<Role, Coefficients>)
    ensures w.Keys == {Implicit}
    ensures Explicit !in w
    ensures w[Implicit].Keys == {"cell 1 diag", "cell 1 offdiag", "cell 2 diag", "cell 2 offdiag"}
    ensures w[Implicit]["cell 1 diag"] + w[Implicit]["cell 1 offdiag"] == 0
    ensures w[Implicit]["cell 2 diag"] + w[Implicit]["cell 2 offdiag"] == 0
    ensures w[Implicit]["cell 1 diag"] == w[Implicit]["cell 2 diag"]
    ensures w[Implicit]["cell 1 offdiag"] == w[Implicit]["cell 2 offdiag"]
    ensures w[Implicit]["cell 1 diag"] == -1 && w[Implicit]["cell 1 offdiag"] == 1
    ensures w[Implicit]["cell 2 diag"] == -1 && w[Implicit]["cell 2 offdiag"] == 1
  {
    map[Implicit := map["cell 1 diag" := -1, "cell 1 offdiag" := 1, "cell 2 diag" := -1, "cell 2 offdiag" := 1]]
  }

  /** The weight does not depend on the mesh. */
  lemma MeshIndependent(m1: MeshVariables.Mesh, m2: MeshVariables.Mesh)
    ensures Weight(m1) == Weight(m2)
  {
  }
}
