/**
 * The log levels of the server (utils/logging_config.py): the eight levels
 * of RFC 5424, their numbers on Python's `logging` scale, and the mapping
 * back from a Python level number that the formatter and the handler use.
 */
module LoggingLevels {
  import opened Wrappers

  /** `LogLevel`: the severities of section 6.2.1 of RFC 5424. */
  datatype LogLevel = Debug | Info | Notice | Warning | Error | Critical | Alert | Emergency

  /** The level's wire name (`LogLevel.value`). */
  function Name(l: LogLevel): string
  {
    match l
    case Debug => "debug"
    case Info => "info"
    case Notice => "notice"
    case Warning => "warning"
    case Error => "error"
    case Critical => "critical"
    case Alert => "alert"
    case Emergency => "emergency"
  }

  // Python's `logging` constants.
  const PyDebug: int := 10
  const PyInfo: int := 20
  const PyWarning: int := 30
  const PyError: int := 40
  const PyCritical: int := 50

  /** The numerical code RFC 5424 (section 6.2.1) gives each severity: 0 is the most severe. */
  function Severity(l: LogLevel): (s: nat)
    ensures s < 8
  {
    match l
    case Emergency => 0
    case Alert => 1
    case Critical => 2
    case Error => 3
    case Warning => 4
    case Notice => 5
    case Info => 6
    case Debug => 7
  }

  /** `LOG_LEVEL_MAPPING`, in its order: NOTICE sits between INFO and WARNING, ALERT and EMERGENCY above CRITICAL. */
  const LevelMapping: seq<(LogLevel, int)> := [
    (Debug, PyDebug),
    (Info, PyInfo),
    (Notice, PyInfo + 5),
    (Warning, PyWarning),
    (Error, PyError),
    (Critical, PyCritical),
    (Alert, PyCritical + 5),
    (Emergency, PyCritical + 10)
  ]

  /** `LOG_LEVEL_MAPPING[l]`. */
  function PythonLevel(l: LogLevel): (n: int)
    ensures (l, n) in LevelMapping
  {
    LevelMapping[7 - Severity(l)].1
  }

  /**
   * The mapping is injective and turns the RFC 5424 order around: a more
   * severe level has a larger Python number.
   */
  lemma PythonLevelOrder(a: LogLevel, b: LogLevel)
    ensures Severity(a) < Severity(b) <==> PythonLevel(a) > PythonLevel(b)
    ensures PythonLevel(a) == PythonLevel(b) ==> a == b
  {
  }

  /** `PYTHON_TO_MCP_MAPPING`: `{v: k for k, v in LOG_LEVEL_MAPPING.items()}`. */
  function Inverse(m: seq<(LogLevel, int)>): (r: map<int, LogLevel>)
    ensures r.Keys == set i | 0 <= i < |m| :: m[i].1
  {
    if m == [] then map[] else Inverse(m[..|m| - 1])[m[|m| - 1].1 := m[|m| - 1].0]
  }

  const PythonToMcpMapping: map<int, LogLevel> := Inverse(LevelMapping)

  /** Each level is found again under its own number, so the inverse loses nothing. */
  lemma InverseRoundTrip(l: LogLevel)
    ensures PythonLevel(l) in PythonToMcpMapping && PythonToMcpMapping[PythonLevel(l)] == l
  {
    var m := LevelMapping;
    forall a, b | 0 <= a < b < |m| ensures m[a].1 != m[b].1 {
      assert m[a].1 < m[b].1;
    }
    InverseAt(m, 7 - Severity(l));
  }

  /** When no number appears twice, the inverse maps each number back to its level. */
  lemma {:induction false} InverseAt(m: seq<(LogLevel, int)>, i: nat)
    requires forall a, b :: 0 <= a < b < |m| ==> m[a].1 != m[b].1
    requires i < |m|
    ensures m[i].1 in Inverse(m) && Inverse(m)[m[i].1] == m[i].0
  {
    if i < |m| - 1 {
      InverseAt(m[..|m| - 1], i);
    }
  }

  /** The first level whose number is `n`, if any. */
  function Exact(m: seq<(LogLevel, int)>, n: int): (r: Option<LogLevel>)
    ensures r.Some? ==> (r.value, n) in m
    ensures r.None? <==> forall i :: 0 <= i < |m| ==> m[i].1 != n
  {
    if m == [] then None
    else if m[0].1 == n then Some(m[0].0)
    else Exact(m[1..], n)
  }

  /** The nearest standard level for a number with no level of its own. */
  function Approximate(n: int): (l: LogLevel)
    ensures l in {Debug, Info, Warning, Error, Critical}
  {
    if n <= PyDebug then Debug
    else if n <= PyInfo then Info
    else if n <= PyWarning then Warning
    else if n <= PyError then Error
    else Critical
  }

  /** `MCPLogFormatter._get_mcp_level` as a function: the exact level if there is one, else the approximation. */
  function McpLevel(n: int): (l: LogLevel)
  {
    match Exact(LevelMapping, n)
    case Some(l) => l
    case None => Approximate(n)
  }

  /**
   * `MCPLogFormatter._get_mcp_level`: searches the mapping for the number
   * and returns on the first match, and otherwise falls back to the
   * nearest standard level.  It always returns a level.
   */
  method FormatterMcpLevel(pythonLevel: int) returns (r: Option<LogLevel>)
    ensures r == Some(McpLevel(pythonLevel))
  {
    var i := 0;
    while i < |LevelMapping|
      invariant 0 <= i <= |LevelMapping|
      invariant Exact(LevelMapping, pythonLevel) == Exact(LevelMapping[i..], pythonLevel)
    {
      var (level, number) := LevelMapping[i];
      if number == pythonLevel {
        return Some(level);
      }
      assert LevelMapping[i..][1..] == LevelMapping[i + 1..];
      i := i + 1;
    }
    if pythonLevel <= PyDebug {
      return Some(Debug);
    } else if pythonLevel <= PyInfo {
      return Some(Info);
    } else if pythonLevel <= PyWarning {
      return Some(Warning);
    } else if pythonLevel <= PyError {
      return Some(Error);
    } else {
      return Some(Critical);
    }
  }

  /** `MCPLogHandler._get_mcp_level`: the formatter's level, or INFO if it had none. */
  method HandlerMcpLevel(pythonLevel: int) returns (l: LogLevel)
    ensures l == McpLevel(pythonLevel)
  {
    var r := FormatterMcpLevel(pythonLevel);
    l := if r.Some? then r.value else Info;
  }

  /** Mapping a level to its number and back gives the level. */
  lemma McpLevelRoundTrip(l: LogLevel)
    ensures McpLevel(PythonLevel(l)) == l
  {
    var n := PythonLevel(l);
    var i := 7 - Severity(l);
    assert LevelMapping[i] == (l, n);
    ExactFindsFirst(LevelMapping, n, i);
  }

  /** `Exact` finds the entry at `i` when no earlier entry has the number. */
  lemma {:induction false} ExactFindsFirst(m: seq<(LogLevel, int)>, n: int, i: nat)
    requires i < |m| && m[i].1 == n && forall j :: 0 <= j < i ==> m[j].1 != n
    ensures Exact(m, n) == Some(m[i].0)
  {
    if i > 0 {
      ExactFindsFirst(m[1..], n, i - 1);
    }
  }

  /** A number with no level of its own gets DEBUG up to 10, INFO up to 20, WARNING up to 30, ERROR up to 40, CRITICAL above. */
  lemma Fallbacks(n: int)
    requires forall l :: PythonLevel(l) != n
    ensures n <= 10 ==> McpLevel(n) == Debug
    ensures 10 < n <= 20 ==> McpLevel(n) == Info
    ensures 20 < n <= 30 ==> McpLevel(n) == Warning
    ensures 30 < n <= 40 ==> McpLevel(n) == Error
    ensures 40 < n ==> McpLevel(n) == Critical
  {
    forall i | 0 <= i < |LevelMapping| ensures LevelMapping[i].1 != n {
      assert PythonLevel(LevelMapping[i].0) == LevelMapping[i].1;
    }
  }

  /**
   * The fallback skips the levels without a standard Python number: 24 is
   * WARNING though 25 is NOTICE, and 61 is CRITICAL though 60 is EMERGENCY,
   * so a larger number can give a less severe level.
   */
  lemma FallbackNotMonotone()
    ensures McpLevel(24) == Warning && McpLevel(25) == Notice && Severity(Warning) < Severity(Notice)
    ensures McpLevel(61) == Critical && McpLevel(60) == Emergency && Severity(Emergency) < Severity(Critical)
  {
    McpLevelRoundTrip(Notice);
    McpLevelRoundTrip(Emergency);
    Fallbacks(24);
    Fallbacks(61);
  }
}
