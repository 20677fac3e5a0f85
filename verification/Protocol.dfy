/** The payloads shared by worker, registry, cache and scheduler, with the fields
    that the router's decisions depend on. */
module Protocol {

  datatype ModelInfo = ModelInfo(name: string, quantization: string, loaded: bool)

  datatype StatsSnapshot = StatsSnapshot(
    model: string, tokensPerSecond: real, avgTtftMs: real, avgPromptTokens: real, avgCompletionTokens: real, samples: int)

  datatype Capabilities = Capabilities(
    models: seq<ModelInfo>,
    vramTotalMB: int,
    vramFreeMB: int,
    allowedModels: seq<string>,
    excludedModels: seq<string>,
    concurrencyCap: int,
    inferenceStats: seq<StatsSnapshot>)

  datatype Status = Available | Busy | Unassigned | Unavailable

  datatype Transport = Http | WebSocket

  datatype WorkerInfo = WorkerInfo(
    id: string,
    hostname: string,
    ip: string,
    port: int,
    capabilities: Capabilities,
    status: Status,
    transport: Transport,
    lastSeen: int)

  datatype Option<T> = None | Some(value: T)

  /** The capacity of every outbound queue. */
  const SEND_QUEUE_SIZE := 256
}
