/** The per-worker record of a pool (metrics.go), with the fields the models here read or write. */
module Pools {
  datatype PoolProcess = PoolProcess(
    pid: int,
    state: string,
    requestURI: string,
    lastRequestCPU: real,
    lastRequestMemory: real,
    currentRSS: int,
    currentPSS: int,
    subtreeRSS: int)
}
