/** The scalar field of BN254, over which BabyJubJub and the pool's nullifiers are written. */
module Field {
  const P_FR := 21888242871839275222246405745257275088548364400416034343698204186575808495617
}
