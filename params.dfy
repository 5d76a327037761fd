/** LspParams: the epoch length in milliseconds and the number of silent
    epochs tolerated. Both are final and taken as given, with no validation. */
module Params {
  import opened Java

  datatype LspParams = LspParams(epoch: int32, epochLimit: int32)

  const DEFAULT_PARAMS: LspParams := LspParams(2000, 5)

  /** The shared default: 2000 ms epochs and a limit of five epochs. */
  function DefaultParams(): (p: LspParams)
    ensures p.epoch == 2000 && p.epochLimit == 5
  {
    DEFAULT_PARAMS
  }
}
