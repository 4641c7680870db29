/** The fixed addresses the program and its clients pin. */
module Addresses {
  const COMPUTE_BUDGET := "ComputeBudget111111111111111111111111111111"
  const ASSOCIATED_TOKEN := "ATokenGPvbdGVxr1b2hvZbsiqW5xWH25efTNsLJA8knL"
  const JUPITER := "JUP6LkbZbjS1jKKwapdHNy74zcZ3tLUZoi5QNyVTaV4"
  const JUPITER_EVENT_AUTHORITY := "D8cy77BBepLMngZx6ZukaTff5hCt1HrWyKk3Hnd9oitf"
  const USDC := "EPjFWdd5AufqSSqeM2qN1xzybapC8G4wEGGkZwyTDt1v"
  const TOKEN_2022 := "TokenzQdBNbLqP5VEhdkAS6EPFLC1PHnBqCXEpPxuEb"
  const LEGACY_TOKEN := "TokenkegQfeZyiNwAJbNbGKPFXCWuBvf9Ss623VQ5DA"
  const INSTRUCTIONS_SYSVAR := "Sysvar1nstructions1111111111111111111111111"
  const WHIRLPOOL := "whirLbMiicVdio4qvUfM5KAg6Ct8VwpYzGff3uctyCc"
  const EQUITY_GUARD := "EbzHfaoSHdsWuVdatCmmcBnZi5npJBNXmWhFVeEtNnhT"
  const SYSTEM_PROGRAM := "11111111111111111111111111111111"

  lemma ProgramsDiffer()
    ensures JUPITER != COMPUTE_BUDGET && JUPITER != ASSOCIATED_TOKEN && COMPUTE_BUDGET != ASSOCIATED_TOKEN
  {
    assert JUPITER[0] == 'J' && COMPUTE_BUDGET[0] == 'C' && ASSOCIATED_TOKEN[0] == 'A';
  }
}
