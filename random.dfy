/** The generator's random source, `globalRNG()`. */
module Random {

  /**
   * A seeded stream of draws. `draws(k)` is the k-th value the source obtains as
   * `std::abs(static_cast<int>(globalRNG()))`; `pos` is how many draws have been taken.
   */
  class Rng {
    const draws: nat -> nat
    var pos: nat

    constructor (draws: nat -> nat, start: nat)
      ensures this.draws == draws && pos == start
    {
      this.draws := draws;
      pos := start;
    }

    /** Takes the next draw of the stream. */
    method Next() returns (v: nat)
      modifies this
      ensures v == draws(old(pos)) && pos == old(pos) + 1
    {
      v := draws(pos);
      pos := pos + 1;
    }
  }
}
