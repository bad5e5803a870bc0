/** The decoded configuration file of parser/client.go and parser/server.go:
    a map from routing key to the per-pair configuration record. */
module Parser {
  import opened Common

  /** A retry sub-policy (`retry.FailurePolicy` or `retry.BackupPolicy`).
      Its fields belong to the retry library; the model carries it opaquely. */
  type SubPolicy = string

  /** `retry.Policy`: at most one of the two sub-policies is meant to be set. */
  datatype RetryPolicy = RetryPolicy(enable: bool, failurePolicy: Option<SubPolicy>, backupPolicy: Option<SubPolicy>)

  /** `circuitbreak.CBConfig`. */
  datatype CBConfig = CBConfig(enable: bool, errRate: real, minSample: int)

  /** `rpctimeout.RPCTimeout`. */
  datatype RPCTimeout = RPCTimeout(rpcTimeoutMS: int, connTimeoutMS: int)

  newtype int64 = x: int | -0x8000_0000_0000_0000 <= x < 0x8000_0000_0000_0000

  /** `limiter.LimiterConfig`. */
  datatype LimiterConfig = LimiterConfig(connectionLimit: int64, qpsLimit: int64)

  /** `parser.ClientFileConfig`: per-method policies, keyed by method name
      (the wildcard "*" included). */
  datatype ClientFileConfig = ClientFileConfig(
    timeout: map<string, RPCTimeout>,
    retry: map<string, RetryPolicy>,
    circuitbreaker: map<string, CBConfig>)

  /** `parser.ServerFileConfig`. */
  datatype ServerFileConfig = ServerFileConfig(limit: LimiterConfig)

  /** A decoded file: routing key to that pair's configuration record.
      `ClientFileManager` and `ServerFileManager` are its two instances. */
  datatype Manager<C> = Manager(entries: map<string, C>) {

    /** `GetConfig`: the entry stored under exactly `key`, or nil when there
        is none. The manager is a value, so the lookup cannot change it. */
    function GetConfig(key: string): (r: Option<C>)
      ensures r.Some? <==> key in entries
      ensures r.Some? ==> r.value == entries[key]
    {
      if key in entries then Some(entries[key]) else None
    }
  }

  type ClientFileManager = Manager<ClientFileConfig>

  type ServerFileManager = Manager<ServerFileConfig>

  /** `parser.Decode`, a YAML library call: decodes the bytes into the given
      manager, or fails. What a success does to entries already in that
      manager is the library's business, so the model takes the decoder as a
      parameter: its result is the manager's new contents. */
  type Decoder<!C> = (Bytes, Manager<C>) -> Option<Manager<C>>

  /** Lookup is by the exact routing key: an entry stored under any other
      string (a prefix, a wildcard) never answers for `key`, and storing
      under `key` answers exactly that. */
  lemma GetConfigExact<C>(m: Manager<C>, stored: string, c: C, key: string)
    ensures Manager(m.entries[stored := c]).GetConfig(stored) == Some(c)
    ensures key != stored ==> Manager(m.entries[stored := c]).GetConfig(key) == m.GetConfig(key)
    ensures Manager<C>.Manager(map[]).GetConfig(key) == None
  {
  }
}
