/** Bounded SQL descriptions (internal/sqltext/sql.go, analyze and its callers). */
module SqlDescribe {
  import opened Options
  import opened Utf8
  import opened ByteText
  import opened SqlScan
  import opened SqlLexer

  const MAX_INPUT: nat := 65536
  const MAX_OUTPUT: nat := 4096
  const MAX_NAME: nat := 256

  datatype Description = Description(
    text: string,
    operation: string,
    summary: string,
    procedure: string,
    collection: string,
    fingerprint: string,
    valid: bool)

  const UNKNOWN := Description("", "SQL", "SQL", "", "", "", false)

  function Print(ts: seq<Token>): string {
    if ts == [] then "" else if |ts| == 1 then ts[0].text else ts[0].text + " " + Print(ts[1..])
  }

  predicate IsOperation(s: string) {
    s in {"SELECT", "INSERT", "UPDATE", "DELETE", "MERGE", "EXECUTE", "CREATE", "ALTER", "DROP", "RECREATE", "DECLARE",
          "GRANT", "REVOKE", "COMMENT", "COMMIT", "ROLLBACK", "SAVEPOINT", "RELEASE", "SET"}
  }

  function DepthAfter(t: Token, depth: int): int {
    if t.text == "(" then depth + 1 else if t.text == ")" then depth - 1 else depth
  }

  /** The first operation from `i` on that stands outside parentheses. */
  function OperationAfter(ts: seq<Token>, i: nat, depth: int): (at: Option<nat>)
    ensures at.Some? ==> i <= at.value < |ts| && IsOperation(ts[at.value].text)
    decreases |ts| - i
  {
    if i >= |ts| then None
    else if i > 0 && DepthAfter(ts[i], depth) == 0 && IsOperation(ts[i].text) then Some(i)
    else OperationAfter(ts, i + 1, DepthAfter(ts[i], depth))
  }

  /** Where the operation of a statement stands: after its common table expressions, if it has any. */
  function StartOf(ts: seq<Token>): (at: Option<nat>)
    requires ts != []
    ensures at.Some? ==> at.value < |ts|
  {
    if ts[0].text == "WITH" then OperationAfter(ts, 0, 0) else Some(0)
  }

  /** What follows the first FROM from `i` on that stands outside parentheses. */
  function AfterFrom(ts: seq<Token>, i: nat, depth: int): Option<nat>
    decreases |ts| - i
  {
    if i >= |ts| then None
    else if DepthAfter(ts[i], depth) == 0 && ts[i].text == "FROM" then Some(i + 1)
    else AfterFrom(ts, i + 1, DepthAfter(ts[i], depth))
  }

  predicate TextAt(ts: seq<Token>, i: nat, text: string) {
    i < |ts| && ts[i].text == text
  }

  function OperationName(ts: seq<Token>, start: nat): string
    requires start < |ts|
  {
    var op := ts[start].text;
    if op == "EXECUTE" && (TextAt(ts, start + 1, "PROCEDURE") || TextAt(ts, start + 1, "BLOCK")) then
      op + " " + ts[start + 1].text
    else op
  }

  predicate IsUpsert(ts: seq<Token>, start: nat) {
    start + 3 < |ts| && ts[start].text == "UPDATE" && TextAt(ts, start + 1, "OR") && TextAt(ts, start + 2, "INSERT")
  }

  /** The token that names the object the statement works on. */
  function Target(ts: seq<Token>, start: nat): Option<nat>
    requires start < |ts|
  {
    var op := ts[start].text;
    if op == "EXECUTE" then
      if TextAt(ts, start + 1, "PROCEDURE") then Some(start + 2) else None
    else if op == "SELECT" || op == "DELETE" then
      var target := AfterFrom(ts, start + 1, 0);
      if op == "SELECT" && target.Some? && TextAt(ts, target.value, "LATERAL") && TextAt(ts, target.value + 1, "(")
      then None else target
    else if IsUpsert(ts, start) then
      Some(if TextAt(ts, start + 3, "INTO") then start + 4 else start + 3)
    else if op == "UPDATE" then Some(start + 1)
    else if op == "INSERT" || op == "MERGE" then
      if TextAt(ts, start + 1, "INTO") then Some(start + 2) else None
    else None
  }

  /** The dotted rest of a name that ends before token `i`. */
  function QualifiedName(ts: seq<Token>, i: nat, name: string): (string, nat)
    decreases |ts| - i
  {
    if i + 1 < |ts| && ts[i].text == "." && ts[i + 1].identifier then
      QualifiedName(ts, i + 2, name + "." + ts[i + 1].text)
    else (name, i)
  }

  /** The object name at token `i`, "" when there is none or it is too long, and the token after it. */
  function ObjectName(ts: seq<Token>, i: nat): (string, nat) {
    if i >= |ts| || !ts[i].identifier then ("", i) else
    var (name, end) := QualifiedName(ts, i + 1, ts[i].text);
    if |EncodeAll(name)| > MAX_NAME then ("", end) else (name, end)
  }

  /** The description of a token list; `text` is left out rather than cut when it is too long. */
  function Describe(u: Platform, ts: seq<Token>, outputLimit: nat): Description
    requires ts != []
  {
    var normalized := Print(ts);
    var bytes := EncodeAll(normalized);
    var d := UNKNOWN.(
      fingerprint := u.digest(bytes), valid := true, text := if |bytes| <= outputLimit then normalized else "");
    var start := StartOf(ts);
    if start.None? || !IsOperation(ts[start.value].text) then d else
    var op := ts[start.value].text;
    var name := if IsUpsert(ts, start.value) then "UPDATE OR INSERT" else OperationName(ts, start.value);
    var target := Target(ts, start.value);
    var (named, end) := if target.None? then ("", 0) else ObjectName(ts, target.value);
    if named == "" then d.(operation := name, summary := name) else
    d.(operation := name,
       summary := name + " " + named,
       procedure := if name == "EXECUTE PROCEDURE" || (op == "SELECT" && TextAt(ts, end, "(")) then named else "",
       collection := if op in {"UPDATE", "INSERT", "DELETE", "MERGE"} then named else "")
  }

  function Limit(requested: int, max: nat): nat {
    if requested <= 0 || requested > max then max else requested
  }

  predicate HasQuotedIdentifier(ts: seq<Token>) {
    exists i :: 0 <= i < |ts| && ts[i].identifier && ts[i].text != [] && ts[i].text[0] == '"'
  }

  /** analyze: `dialect3` says that double quotes are known to denote identifiers. */
  function Analyze(u: Platform, sql: Bytes, inputLimit: int, outputLimit: int, dialect3: bool): Description {
    if |sql| > Limit(inputLimit, MAX_INPUT) || !Valid(sql) then UNKNOWN else
    var ts := Tokens(u, Decode(sql));
    if ts.None? || ts.value == [] || (!dialect3 && HasQuotedIdentifier(ts.value)) then UNKNOWN
    else Describe(u, ts.value, Limit(outputLimit, MAX_OUTPUT))
  }

  /** LeadingOperation: the operation alone, whatever the dialect. */
  function LeadingOperation(u: Platform, sql: Bytes): string {
    if |sql| > MAX_INPUT || !Valid(sql) then "" else
    var ts := Tokens(u, Decode(sql));
    if ts.None? || ts.value == [] then "" else
    var start := StartOf(ts.value);
    if start.None? || !IsOperation(ts.value[start.value].text) then ""
    else OperationName(ts.value, start.value)
  }

  /** Identifier: an explicit hint that is one object name and nothing else. */
  predicate Identifier(u: Platform, s: Bytes) {
    && 0 < |s| <= MAX_NAME && Valid(s)
    && var ts := Tokens(u, Decode(s));
       ts.Some? && var (name, end) := ObjectName(ts.value, 0);
       name != "" && end == |ts.value| && u.equalFold(Decode(s), name)
  }

  /** HasTerminalEllipsis: the text was cut short outside literals and comments. */
  predicate HasTerminalEllipsis(u: Platform, sql: Bytes) {
    && HasSuffix(TrimSpace(sql), Ascii("..."))
    && (|sql| > MAX_INPUT || !Valid(sql)
        || var ts := Tokens(u, Decode(sql));
           ts.None? || (ts.value != [] && ts.value[|ts.value| - 1].text == "."))
  }

  method FindOperation(ts: seq<Token>) returns (at: Option<nat>)
    ensures at == OperationAfter(ts, 0, 0)
  {
    var depth := 0;
    var i := 0;
    while i < |ts|
      invariant i <= |ts|
      invariant OperationAfter(ts, 0, 0) == OperationAfter(ts, i, depth)
    {
      if ts[i].text == "(" {
        depth := depth + 1;
      }
      if ts[i].text == ")" {
        depth := depth - 1;
      }
      if i > 0 && depth == 0 && IsOperation(ts[i].text) {
        return Some(i);
      }
      i := i + 1;
    }
    return None;
  }

  method FindFrom(ts: seq<Token>, start: nat) returns (target: Option<nat>)
    ensures target == AfterFrom(ts, start, 0)
  {
    var depth := 0;
    var i := start;
    while i < |ts|
      invariant AfterFrom(ts, start, 0) == AfterFrom(ts, i, depth)
    {
      if ts[i].text == "(" {
        depth := depth + 1;
      }
      if ts[i].text == ")" {
        depth := depth - 1;
      }
      if depth == 0 && ts[i].text == "FROM" {
        return Some(i + 1);
      }
      i := i + 1;
    }
    return None;
  }

  method ReadObjectName(ts: seq<Token>, at: nat) returns (name: string, end: nat)
    ensures (name, end) == ObjectName(ts, at)
  {
    if at >= |ts| || !ts[at].identifier {
      return "", at;
    }
    name, end := ts[at].text, at + 1;
    while end + 1 < |ts| && ts[end].text == "." && ts[end + 1].identifier
      invariant QualifiedName(ts, at + 1, ts[at].text) == QualifiedName(ts, end, name)
      decreases |ts| - end
    {
      name := name + "." + ts[end + 1].text;
      end := end + 2;
    }
    if |EncodeAll(name)| > MAX_NAME {
      name := "";
    }
  }

  method FindTarget(ts: seq<Token>, start: nat) returns (target: Option<nat>)
    requires start < |ts|
    ensures target == Target(ts, start)
  {
    target := None;
    match ts[start].text {
      case "EXECUTE" =>
        if start + 1 < |ts| && ts[start + 1].text == "PROCEDURE" {
          target := Some(start + 2);
        }
      case "SELECT" =>
        target := FindFrom(ts, start + 1);
        if target.Some? && TextAt(ts, target.value, "LATERAL") && TextAt(ts, target.value + 1, "(") {
          target := None;
        }
      case "DELETE" =>
        target := FindFrom(ts, start + 1);
      case "UPDATE" =>
        target := Some(start + 1);
        if start + 3 < |ts| && ts[start + 1].text == "OR" && ts[start + 2].text == "INSERT" {
          target := Some(if ts[start + 3].text == "INTO" then start + 4 else start + 3);
        }
      case "INSERT" =>
        if start + 1 < |ts| && ts[start + 1].text == "INTO" {
          target := Some(start + 2);
        }
      case "MERGE" =>
        if start + 1 < |ts| && ts[start + 1].text == "INTO" {
          target := Some(start + 2);
        }
      case _ =>
    }
  }

  method DescribeTokens(u: Platform, ts: seq<Token>, outputLimit: nat) returns (d: Description)
    requires ts != []
    ensures d == Describe(u, ts, outputLimit)
  {
    hide Target, ObjectName, OperationAfter, Print, EncodeAll, OperationName, IsUpsert, IsOperation;
    var normalized := Print(ts);
    var bytes := EncodeAll(normalized);
    d := UNKNOWN.(fingerprint := u.digest(bytes), valid := true);
    if |bytes| <= outputLimit {
      d := d.(text := normalized);
    }
    var start := Some(0);
    if ts[0].text == "WITH" {
      start := FindOperation(ts);
    }
    if start == None || !IsOperation(ts[start.value].text) {
      return;
    }
    var op := ts[start.value].text;
    d := d.(operation := if IsUpsert(ts, start.value) then "UPDATE OR INSERT" else OperationName(ts, start.value));
    var target := FindTarget(ts, start.value);
    var name, end := "", 0;
    if target.Some? {
      name, end := ReadObjectName(ts, target.value);
    }
    d := d.(summary := d.operation);
    if name != "" {
      d := d.(summary := d.summary + " " + name);
      if d.operation == "EXECUTE PROCEDURE" || (op == "SELECT" && end < |ts| && ts[end].text == "(") {
        d := d.(procedure := name);
      }
      if op in {"UPDATE", "INSERT", "DELETE", "MERGE"} {
        d := d.(collection := name);
      }
    }
  }

  method AnalyzeSql(u: Platform, sql: Bytes, inputLimit: int, outputLimit: int, dialect3: bool) returns (d: Description)
    ensures d == Analyze(u, sql, inputLimit, outputLimit, dialect3)
  {
    hide Tokens, Describe;
    if |sql| > Limit(inputLimit, MAX_INPUT) || !Valid(sql) {
      return UNKNOWN;
    }
    var ts := Lex(u, Decode(sql));
    if ts == None || ts.value == [] {
      return UNKNOWN;
    }
    if !dialect3 && HasQuotedIdentifier(ts.value) {
      return UNKNOWN;
    }
    d := DescribeTokens(u, ts.value, Limit(outputLimit, MAX_OUTPUT));
  }
}
