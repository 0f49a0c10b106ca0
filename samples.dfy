/**
 * The sample type of the acquisition task: a `std::complex<short>`, the
 * in-phase and quadrature components each a 16-bit signed integer.
 */
module Samples {

  newtype Int16 = x: int | -0x8000 <= x < 0x8000

  datatype Sample = Sample(i: Int16, q: Int16)

  /** Both components of any sample lie in the 16-bit signed range. */
  lemma SampleComponentsInRange(s: Sample)
    ensures -32768 <= s.i as int <= 32767
    ensures -32768 <= s.q as int <= 32767
  {
  }
}
