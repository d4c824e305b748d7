/** What two sketches must agree on before their hashes mean the same. */
module HashSpecs {
  datatype HashFamily = Fsk1

  datatype HashSpec = HashSpec(family: HashFamily, seed: nat, version: nat)
}
