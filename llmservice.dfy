/**
 * The string building of the analytics assistant's client for a local Ollama
 * server: the endpoint URLs the service derives from its base URL, the system
 * prompt (base text, one paragraph for the user's role, the data summary), the
 * data summary lines, and the message list sent to the chat endpoint.
 */
module LlmService {
  import opened Wrappers
  import opened PyStr
  import Models

  // ---------------------------------------------------------------------------
  // Python values

  /** The values a context or data dictionary may hold. */
  datatype Value =
    | NoneV
    | BoolV(b: bool)
    | IntV(i: int)
    | FloatV(text: string)  // the float's own `repr`, e.g. "0.5"
    | StrV(s: string)
    | ListV(items: seq<Value>)
    | DictV(entries: seq<Entry>)

  datatype Entry = Entry(key: Value, val: Value)

  /** A dictionary with string keys, in insertion order. */
  type Dict = seq<(string, Value)>

  /** `d.get(key)`: the value stored under `key`, if any. */
  function Lookup(d: Dict, key: string): (r: Option<Value>)
    ensures r.None? <==> forall i :: 0 <= i < |d| ==> d[i].0 != key
    ensures r.Some? ==> exists i :: 0 <= i < |d| && d[i] == (key, r.value)
  {
    if d == [] then None
    else if d[0].0 == key then Some(d[0].1)
    else
      var r := Lookup(d[1..], key);
      assert r.Some? ==> exists i :: 1 <= i < |d| && d[i] == (key, r.value) by {
        if r.Some? {
          var i :| 0 <= i < |d[1..]| && d[1..][i] == (key, r.value);
          assert d[i + 1] == (key, r.value);
        }
      }
      r
  }

  function BoolText(b: bool): string {
    if b then "True" else "False"
  }

  /** `repr(v)`. */
  function Repr(v: Value): string
    decreases v
  {
    match v
    case NoneV => "None"
    case BoolV(b) => BoolText(b)
    case IntV(i) => IntToDecimal(i)
    case FloatV(text) => text
    case StrV(s) => "'" + s + "'"
    case ListV(items) => "[" + ReprItems(items) + "]"
    case DictV(entries) => "{" + ReprEntries(entries) + "}"
  }

  function ReprItems(items: seq<Value>): string
    decreases items
  {
    if items == [] then ""
    else if |items| == 1 then Repr(items[0])
    else Repr(items[0]) + ", " + ReprItems(items[1..])
  }

  function ReprEntry(e: Entry): string
    decreases e
  {
    Repr(e.key) + ": " + Repr(e.val)
  }

  function ReprEntries(entries: seq<Entry>): string
    decreases entries
  {
    if entries == [] then ""
    else if |entries| == 1 then ReprEntry(entries[0])
    else ReprEntry(entries[0]) + ", " + ReprEntries(entries[1..])
  }

  /** `str(v)`, which is what an f-string inserts: a string itself, any other value its `repr`. */
  function Str(v: Value): string {
    if v.StrV? then v.s else Repr(v)
  }

  // ---------------------------------------------------------------------------
  // The service and its endpoints

  const DefaultBaseUrl: string := "http://localhost:11434"
  const DefaultModel: string := "llama3.2:3b"

  /** The generate endpoint under `baseUrl`. */
  function GenerateEndpoint(baseUrl: string): (r: string)
    ensures baseUrl <= r && r[|baseUrl|..] == "/api/generate"
  {
    baseUrl + "/api/generate"
  }

  /** The chat endpoint under `baseUrl`. */
  function ChatEndpoint(baseUrl: string): (r: string)
    ensures baseUrl <= r && r[|baseUrl|..] == "/api/chat"
  {
    baseUrl + "/api/chat"
  }

  /** A chat message: a dictionary from strings to strings (`role`, `content`, ...). */
  type Message = seq<(string, string)>

  class OllamaService {
    var baseUrl: string
    var model: string
    var apiEndpoint: string
    var chatEndpoint: string

    /** `OllamaService(base_url, model)`, with the default local server and model. */
    constructor (baseUrl: string := DefaultBaseUrl, model: string := DefaultModel)
      ensures this.baseUrl == baseUrl && this.model == model
      ensures apiEndpoint == GenerateEndpoint(baseUrl)
      ensures chatEndpoint == ChatEndpoint(baseUrl)
    {
      this.baseUrl := baseUrl;
      this.model := model;
      apiEndpoint := baseUrl + "/api/generate";
      chatEndpoint := baseUrl + "/api/chat";
    }

    /** `generate_data_summary`: the summary lines of `data`, one per line. */
    method GenerateDataSummary(data: Dict) returns (r: string)
      ensures r == Join(SummaryLines(data), "\n")
    {
      var parts: seq<string> := [];
      var i := 0;
      while i < |data|
        invariant 0 <= i <= |data|
        invariant parts == SummaryLines(data[..i])
      {
        var (key, value) := data[i];
        assert data[..i + 1][..i] == data[..i];
        var line := SummaryLine(key, value);
        if line.Some? {
          parts := parts + [line.value];
        }
        i := i + 1;
      }
      assert data[..i] == data;
      r := Join(parts, "\n");
    }
  }

  // ---------------------------------------------------------------------------
  // The system prompt

  const BasePrompt: string :=
    "You are an AI assistant for ClearView Insurance, specializing in insurance analytics and insights.\n"
    + "Your role is to help users understand their data, provide recommendations, and answer questions about policies, claims, and insurance operations.\n"
    + "\n"
    + "Be helpful, professional, and data-driven in your responses. When analyzing data:\n"
    + "- Provide clear insights and patterns\n"
    + "- Suggest actionable recommendations\n"
    + "- Explain trends and anomalies\n"
    + "- Be concise but thorough\n"
    + "- Use specific numbers when available\n"
    + "\n"

  /** The paragraph for each of the four account kinds: its opening words, then the rest. */
  function Paragraph(role: Models.Role): string {
    Opening(role) + ParagraphRest(role)
  }

  function Opening(role: Models.Role): string {
    match role
    case Admin => "You are assisting an ADMINISTRATOR"
    case Customer => "You are assisting a CUSTOMER"
    case Insurer => "You are assisting an INSURER"
    case Regulator => "You are assisting a REGULATOR"
  }

  function ParagraphRest(role: Models.Role): string {
    match role
    case Admin => AdminFocus
    case Customer => CustomerFocus
    case Insurer => InsurerFocus
    case Regulator => RegulatorFocus
  }

  const AdminFocus: string :=
    " who oversees the entire insurance system.\n"
    + "Focus on: system-wide analytics, user management insights, compliance, overall performance metrics, and operational efficiency.\n"
    + "\n"

  const CustomerFocus: string :=
    " who wants to understand their insurance policies and claims.\n"
    + "Focus on: personal policy details, claim status, renewal recommendations, coverage explanations, and cost optimization.\n"
    + "\n"

  const InsurerFocus: string :=
    " who manages policies and claims for their insurance company.\n"
    + "Focus on: policy performance, claims analysis, risk assessment, customer trends, and business insights.\n"
    + "\n"

  const RegulatorFocus: string :=
    " who monitors compliance and industry standards.\n"
    + "Focus on: compliance metrics, industry trends, regulatory issues, market oversight, and risk monitoring.\n"
    + "\n"

  const SummaryHeading: string := "\n\nCurrent Data Summary:\n"

  /** `context.get('role', 'user')`. */
  function RoleIn(context: Dict): Value {
    match Lookup(context, "role")
    case None => StrV("user")
    case Some(v) => v
  }

  /** The account kind whose name (`'admin'`, `'customer'`, ...) the role value is, if any. */
  function KnownRole(role: Value): (r: Option<Models.Role>)
    ensures r.Some? ==> role == StrV(Models.Prefix(r.value))
    ensures r.None? ==> forall k :: role != StrV(Models.Prefix(k))
  {
    if role == StrV("admin") then Some(Models.Admin)
    else if role == StrV("customer") then Some(Models.Customer)
    else if role == StrV("insurer") then Some(Models.Insurer)
    else if role == StrV("regulator") then Some(Models.Regulator)
    else None
  }

  /** What the role adds to the prompt: its paragraph, or nothing for an unknown role. */
  function RoleSection(role: Value): string {
    match KnownRole(role)
    case None => ""
    case Some(k) => Paragraph(k)
  }

  /** What `'data_summary'` adds to the prompt: nothing when the key is absent. */
  function SummarySection(context: Dict): string {
    match Lookup(context, "data_summary")
    case None => ""
    case Some(v) => SummaryHeading + Str(v) + "\n"
  }

  /** `_build_system_prompt(context)`. */
  function BuildSystemPrompt(context: Option<Dict>): (r: string)
    ensures BasePrompt <= r
    ensures context.None? || context.value == [] ==> r == BasePrompt
  {
    if context.None? || context.value == [] then BasePrompt
    else BasePrompt + (RoleSection(RoleIn(context.value)) + SummarySection(context.value))
  }

  /** The messages `chat` posts: the system message first, then the caller's messages. */
  function ChatMessages(messages: seq<Message>, context: Option<Dict>): (r: seq<Message>)
    ensures |r| == |messages| + 1
    ensures r[0] == [("role", "system"), ("content", BuildSystemPrompt(context))]
    ensures r[1..] == messages
  {
    [[("role", "system"), ("content", BuildSystemPrompt(context))]] + messages
  }

  // ---------------------------------------------------------------------------
  // The data summary

  /** `key.replace('_', ' ').title()`. */
  function KeyLabel(key: string): string {
    Title(ReplaceChar(key, '_', ' '))
  }

  /**
   * The text after the label for a number, a list or a dict; nothing for any
   * other value. A bool counts as a number (`isinstance(True, int)`) and
   * shows as `True`/`False`; an int as its sign and decimal digits; a float
   * as its own text; a list and a dict as their length and `items`/`entries`.
   */
  function SummaryValue(v: Value): (r: Option<string>)
    ensures r.Some? <==> v.BoolV? || v.IntV? || v.FloatV? || v.ListV? || v.DictV?
    ensures v.BoolV? ==> r == Some(if v.b then "True" else "False")
    ensures v.IntV? ==> r == Some(if v.i < 0 then "-" + NatToDecimal(-v.i) else NatToDecimal(v.i))
    ensures v.FloatV? ==> r == Some(v.text)
    ensures v.ListV? ==> r == Some(NatToDecimal(|v.items|) + " items")
    ensures v.DictV? ==> r == Some(NatToDecimal(|v.entries|) + " entries")
  {
    match v
    case BoolV(_) => Some(Str(v))
    case IntV(_) => Some(Str(v))
    case FloatV(_) => Some(Str(v))
    case ListV(items) => Some(NatToDecimal(|items|) + " items")
    case DictV(entries) => Some(NatToDecimal(|entries|) + " entries")
    case _ => None
  }

  /** The summary line of one entry, if its value gets one. */
  function SummaryLine(key: string, v: Value): Option<string> {
    match SummaryValue(v)
    case None => None
    case Some(text) => Some("- " + KeyLabel(key) + ": " + text)
  }

  /** `summary_parts` after the loop over `data`. */
  function SummaryLines(data: Dict): seq<string> {
    if data == [] then []
    else
      var last := data[|data| - 1];
      SummaryLines(data[..|data| - 1]) +
        match SummaryLine(last.0, last.1)
        case None => []
        case Some(line) => [line]
  }
}
