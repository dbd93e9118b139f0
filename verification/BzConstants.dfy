/** Size limits the compressor and the decompressor share. */
module BzConstants {
  const MAX_ALPHA_SIZE := 258
  const MAX_CODE_LEN := 23
  const BZ_G_SIZE := 50
  const BZ_N_GROUPS := 6
  const BZ_N_ITERS := 4
  const BZ_LESSER_ICOST := 0
  const BZ_GREATER_ICOST := 15
  const BZ_MAX_SELECTORS := 18002

  lemma MaxAlpha()
    ensures MAX_ALPHA_SIZE == 258
  {
  }

  lemma MaxCodeLen()
    ensures MAX_CODE_LEN == 23
  {
  }

  lemma GroupSizes()
    ensures BZ_G_SIZE == 50 && BZ_N_GROUPS == 6 && BZ_N_ITERS == 4
    ensures BZ_LESSER_ICOST == 0 && BZ_GREATER_ICOST == 15 && BZ_MAX_SELECTORS == 18002
  {
  }
}
