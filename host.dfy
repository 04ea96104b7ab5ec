/** The foreign libraries the core calls, kept uninterpreted: json.loads, ast.parse,
    the cognitive_complexity package, astunparse and str() of a decoded value.
    Each is a function field of a Host value that the caller supplies. */
module Host {
  import opened Py

  /** A value json.loads can produce. Floats carry their text only. */
  datatype Json =
    | JNull
    | JBool(b: bool)
    | JInt(n: int)
    | JFloat(text: string)
    | JStr(s: string)
    | JArr(items: seq<Json>)
    | JObj(fields: map<string, Json>)

  /** A top-level statement of a parsed module or function body. Statements other
      than function definitions are opaque. */
  datatype Stmt =
    | FunctionDef(name: string, body: seq<Stmt>)
    | AsyncFunctionDef(name: string, body: seq<Stmt>)
    | OtherStmt(tag: nat)

  /** What ast.parse does: a module body, a SyntaxError (IndentationError included)
      with its message, or another exception (ValueError on a null byte). */
  datatype ParseResult =
    | Parsed(body: seq<Stmt>)
    | SyntaxErrorRaised(message: string)
    | OtherRaised(error: PyError)

  datatype Host = Host(
    loads: string -> Option<Json>,     // json.loads; None is JSONDecodeError
    parse: string -> ParseResult,      // ast.parse
    nodeComplexity: Stmt -> nat,       // cognitive_complexity.api.get_cognitive_complexity_for_node
    unparse: Stmt -> string,           // astunparse.unparse
    isDecorator: Stmt -> bool,         // cognitive_complexity.utils.ast.is_decorator
    repr: Json -> string               // str() of a decoded value that is not a str
  )

  /** isinstance(j, int): bool is a subclass of int in Python. */
  predicate IsPyInt(j: Json) { j.JInt? || j.JBool? }

  /** The Python value a decoded int or bool stands for. */
  function IntValue(j: Json): Value
    requires IsPyInt(j)
  {
    if j.JInt? then Int(j.n) else Bool(j.b)
  }

  /** `key in j` for a str key: dict membership, list membership, substring test,
      or TypeError for None, bools and numbers. */
  function In(key: string, j: Json): (r: Result<bool>)
    ensures j.JObj? ==> r == Ok(key in j.fields)
    ensures r.Err? <==> !(j.JObj? || j.JArr? || j.JStr?)
  {
    match j
    case JObj(fields) => Ok(key in fields)
    case JArr(items) => Ok(JStr(key) in items)
    case JStr(s) => Ok(Contains(s, key))
    case _ => Err(TypeError)
  }

  /** `j[key]` for a str key: only a dict can be indexed by a string. */
  function GetItem(j: Json, key: string): (r: Result<Json>)
    ensures r.Ok? <==> j.JObj? && key in j.fields
    ensures r.Ok? ==> r.value == j.fields[key]
    ensures j.JObj? && key !in j.fields ==> r == Err(KeyError)
    ensures !j.JObj? ==> r == Err(TypeError)
  {
    if !j.JObj? then Err(TypeError)
    else if key in j.fields then Ok(j.fields[key])
    else Err(KeyError)
  }

  /** str() of a decoded value, as an f-string renders it. */
  function Render(host: Host, j: Json): string
  {
    if j.JStr? then j.s else host.repr(j)
  }
}
