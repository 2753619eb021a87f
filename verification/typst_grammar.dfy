/** Typst documents by grammar rather than by cursor: what they are written with, and the diagram calls
    that stand in them. */
module TypstGrammar {
  import opened Text
  import opened ScanMachine
  import D2Grammar
  import RawBlocks

  /** A lexeme, or a group of them. A line comment takes its newline with it. */
  datatype Item =
    | Byte(c: char)
    | Word(name: string)                // a name in code
    | Comment(body: string)             // to the end of the line
    | Block(body: string)               // a comment that is closed
    | Str(body: string)
    | Fence(body: string)               // raw text between three backticks
    | Tick(body: string)                // raw text between single ones
    | Hash(name: string)                // a hash, and the name after it if there is one
    | Apply(name: string, args: Items)  // a hash, a name and an argument list
    | Paren(items: Items)
    | Content(items: Items)             // what stands between square brackets
    | Diagram(hash: bool, call: D2Call)

  datatype Items = End | Then(item: Item, rest: Items)

  /** What follows the name d2. The last one is no call, for want of a diagram. */
  datatype D2Call =
    | Bracketed(diagram: D2Grammar.Items)
    | WithOptions(options: Items, diagram: D2Grammar.Items)
    | Raw(args: string, from: nat, to: nat, body: RawBlocks.Body)  // a raw block, args[from..to]
    | Dangling(options: Items)

  /** Where items stand: in the document, between square brackets, in code, or in the options of a call. */
  datatype Place = Document | Bracket | Script | Options

  predicate InMarkup(at: Place) { at.Document? || at.Bracket? }

  function NameText(hash: bool): string { if hash then "#d2" else "d2" }

  function ItemText(item: Item): string {
    match item
    case Byte(c) => [c]
    case Word(name) => name
    case Comment(body) => "//" + (body + "\n")
    case Block(body) => "/*" + (body + "*/")
    case Str(body) => "\"" + (body + "\"")
    case Fence(body) => "```" + (body + "```")
    case Tick(body) => "`" + (body + "`")
    case Hash(name) => "#" + name
    case Apply(name, args) => "#" + (name + ("(" + (ItemsText(args) + ")")))
    case Paren(items) => "(" + (ItemsText(items) + ")")
    case Content(items) => "[" + (ItemsText(items) + "]")
    case Diagram(hash, call) => NameText(hash) + CallText(call)
  }

  function ItemsText(items: Items): string {
    match items
    case End => ""
    case Then(item, rest) => ItemText(item) + ItemsText(rest)
  }

  function CallText(call: D2Call): string {
    match call
    case Bracketed(diagram) => "[" + (D2Grammar.ItemsText(diagram) + "]")
    case WithOptions(options, diagram) =>
      "(" + (ItemsText(options) + (")" + ("[" + (D2Grammar.ItemsText(diagram) + "]"))))
    case Raw(args, _, _, _) => "(" + (args + ")")
    case Dangling(options) => "(" + (ItemsText(options) + ")")
  }

  // How long they are.

  function Length(item: Item): nat {
    match item
    case Byte(_) => 1
    case Word(name) => |name|
    case Comment(body) => 3 + |body|
    case Block(body) => 4 + |body|
    case Str(body) => 2 + |body|
    case Fence(body) => 6 + |body|
    case Tick(body) => 2 + |body|
    case Hash(name) => 1 + |name|
    case Apply(name, args) => 3 + |name| + ItemsLength(args)
    case Paren(items) => 2 + ItemsLength(items)
    case Content(items) => 2 + ItemsLength(items)
    case Diagram(hash, call) => |NameText(hash)| + CallLength(call)
  }

  function ItemsLength(items: Items): nat {
    match items
    case End => 0
    case Then(item, rest) => Length(item) + ItemsLength(rest)
  }

  function CallLength(call: D2Call): nat {
    match call
    case Bracketed(diagram) => 2 + |D2Grammar.ItemsText(diagram)|
    case WithOptions(options, diagram) => 4 + ItemsLength(options) + |D2Grammar.ItemsText(diagram)|
    case Raw(args, _, _, _) => 2 + |args|
    case Dangling(options) => 2 + ItemsLength(options)
  }

  // Neighbours.

  function FirstOf(item: Item): char {
    match item
    case Byte(c) => c
    case Word(name) => At(name, 0)
    case Comment(_) => '/'
    case Block(_) => '/'
    case Str(_) => '"'
    case Fence(_) => '`'
    case Tick(_) => '`'
    case Hash(_) => '#'
    case Apply(_, _) => '#'
    case Paren(_) => '('
    case Content(_) => '['
    case Diagram(hash, _) => if hash then '#' else 'd'
  }

  function First(items: Items, next: char): char {
    match items
    case End => next
    case Then(item, _) => FirstOf(item)
  }

  function LastOf(item: Item): char {
    match item
    case Byte(c) => c
    case Word(name) => At(name, |name| - 1)
    case Comment(_) => '\n'
    case Block(_) => '/'
    case Str(_) => '"'
    case Fence(_) => '`'
    case Tick(_) => '`'
    case Hash(name) => if name == "" then '#' else At(name, |name| - 1)
    case Apply(_, _) => ')'
    case Paren(_) => ')'
    case Content(_) => ']'
    case Diagram(_, call) => if call.Bracketed? || call.WithOptions? then ']' else ')'
  }

  // The rules. `prev` and `next` are the bytes before and after, NUL at the ends of the document.

  predicate OpensCall(c: char) { c == '(' || c == '[' }

  /** Bytes that mean nothing where they stand. */
  predicate Plain(c: char, at: Place, next: char) {
    && c != '"' && c != '`' && (c == '/' ==> next != '/' && next != '*')
    && match at
       case Document => c != '#' && c != '['
       case Bracket => c != '#' && c != '[' && c != ']'
       case Script => c != '#' && c != '[' && c != '(' && c != ')' && !IsIdentChar(c)
       case Options => c != '(' && c != ')'
  }

  predicate NameChars(name: string) { forall i | 0 <= i < |name| :: IsIdentChar(name[i]) }

  predicate NoClose(body: string) { forall i | 0 <= i < |body| - 1 :: !(body[i] == '*' && body[i + 1] == '/') }

  ghost predicate LegalItem(item: Item, at: Place, prev: char, next: char)
    decreases item, at, prev, next
  {
    match item
    case Byte(c) => Plain(c, at, next)
    case Word(name) =>
      // a whole name; d2 is a call where it is no field and is followed by one
      && at.Script? && name != "" && NameChars(name) && !IsIdentChar(prev) && !IsIdentChar(next)
      && (name == "d2" && prev != '.' ==> !OpensCall(next))
    case Comment(body) => '\n' !in body
    case Block(body) => NoClose(body)
    case Str(body) => D2Grammar.StringBody(body)
    case Fence(body) => RawBlocks.FenceFree(body) && At(body, |body| - 1) != '`'
    case Tick(body) => '`' !in body && (body == "" ==> next != '`')
    case Hash(name) =>
      && !at.Options? && NameChars(name) && !IsIdentChar(next) && (name == "d2" ==> !OpensCall(next))
      && (InMarkup(at) && name != "" ==> next != '(')
    case Apply(name, args) =>
      InMarkup(at) && name != "" && name != "d2" && NameChars(name) && Legal(args, Script, '(', ')')
    case Paren(items) => !InMarkup(at) && Legal(items, at, '(', ')')
    case Content(items) => !at.Options? && Legal(items, Bracket, '[', ']')
    case Diagram(hash, call) =>
      && !at.Options? && (InMarkup(at) ==> hash) && (!hash ==> !IsIdentChar(prev) && prev != '.')
      && (call.Dangling? ==> next != '[')
  }

  ghost predicate Legal(items: Items, at: Place, prev: char, next: char)
    decreases items, at, prev, next
  {
    match items
    case End => true
    case Then(item, rest) =>
      LegalItem(item, at, prev, First(rest, next)) && Legal(rest, at, LastOf(item), next)
  }

  ghost predicate LegalOptions(options: Items) {
    Legal(options, Options, '(', ')') && !RawBlocks.Raw(ItemsText(options))
  }

  /** A call by itself: its options close and are no raw block, its diagram closes, its raw block holds
      one text. */
  ghost predicate LegalCall(call: D2Call) {
    match call
    case Bracketed(diagram) => D2Grammar.Legal(diagram, true)
    case WithOptions(options, diagram) =>
      LegalOptions(options) && LegalCalls(options) && D2Grammar.Legal(diagram, true)
    case Raw(args, from, to, body) =>
      && RawBlocks.RawIn(args, from, to) && (from + 6 < to ==> args[to - 4] != '`')
      && RawBlocks.LegalBody(body) && args[from + 3..to - 3] == RawBlocks.BodyText(body)
    case Dangling(options) => LegalOptions(options) && LegalCalls(options)
  }

  /** All calls are legal, wherever they stand. */
  ghost predicate LegalCalls(items: Items) {
    match items
    case End => true
    case Then(item, rest) => LegalCallsIn(item) && LegalCalls(rest)
  }

  ghost predicate LegalCallsIn(item: Item) {
    match item
    case Apply(_, args) => LegalCalls(args)
    case Paren(items) => LegalCalls(items)
    case Content(items) => LegalCalls(items)
    case Diagram(_, call) => LegalCall(call)
    case _ => true
  }

  /** How deep the regions are nested that the items open. */
  function Levels(items: Items): nat {
    match items
    case End => 0
    case Then(item, rest) => if LevelsIn(item) > Levels(rest) then LevelsIn(item) else Levels(rest)
  }

  function LevelsIn(item: Item): nat {
    match item
    case Apply(_, args) => 1 + Levels(args)
    case Paren(items) => 1 + Levels(items)
    case Content(items) => 1 + Levels(items)
    case _ => 0
  }

  // The calls, from their places in the text alone.

  function OptionsOf(call: D2Call): string {
    if call.WithOptions? then ItemsText(call.options) else ""
  }

  function CodeOf(call: D2Call): string {
    match call
    case Bracketed(diagram) => D2Grammar.ItemsText(diagram)
    case WithOptions(_, diagram) => D2Grammar.ItemsText(diagram)
    case Raw(_, _, _, body) => body.code
    case Dangling(_) => ""
  }

  function Blocks(call: D2Call, start: nat, end: nat, code: bool): seq<D2Block> {
    if call.Dangling? then [] else [D2Block(start, end, OptionsOf(call), CodeOf(call), code)]
  }

  /** The calls of items that stand from k on. */
  function Calls(items: Items, k: nat, code: bool): seq<D2Block>
    decreases items, k, code
  {
    match items
    case End => []
    case Then(item, rest) => CallsIn(item, k, code) + Calls(rest, k + Length(item), code)
  }

  function CallsIn(item: Item, k: nat, code: bool): seq<D2Block>
    decreases item, k, code
  {
    match item
    case Apply(name, args) => Calls(args, k + 2 + |name|, true)
    case Paren(items) => Calls(items, k + 1, true)
    case Content(items) => Calls(items, k + 1, false)
    case Diagram(_, call) => Blocks(call, k, k + Length(item), code)
    case _ => []
  }

  function Sites(call: D2Call, start: nat): seq<SkipSite> {
    if call.Dangling? then [SkipSite(start, NoDiagramBlock)] else []
  }

  /** The places where a diagram is missing. */
  function Missing(items: Items, k: nat): seq<SkipSite>
    decreases items, k
  {
    match items
    case End => []
    case Then(item, rest) => MissingIn(item, k) + Missing(rest, k + Length(item))
  }

  function MissingIn(item: Item, k: nat): seq<SkipSite>
    decreases item, k
  {
    match item
    case Apply(name, args) => Missing(args, k + 2 + |name|)
    case Paren(items) => Missing(items, k + 1)
    case Content(items) => Missing(items, k + 1)
    case Diagram(_, call) => Sites(call, k)
    case _ => []
  }

  /** How a document may end: there; in a line comment; or in a call that is never closed. */
  datatype Tail =
    | Ended
    | LastComment(body: string)
    | OpenOptions(options: Items)
    | OpenDiagram(diagram: D2Grammar.Items)

  function TailText(tail: Tail): string {
    match tail
    case Ended => ""
    case LastComment(body) => "//" + body
    case OpenOptions(options) => "#d2" + ("(" + ItemsText(options))
    case OpenDiagram(diagram) => "#d2" + ("[" + D2Grammar.ItemsText(diagram))
  }

  ghost predicate LegalTail(tail: Tail) {
    match tail
    case Ended => true
    case LastComment(body) => '\n' !in body
    case OpenOptions(options) => Legal(options, Options, '(', '\0')
    case OpenDiagram(diagram) => D2Grammar.Legal(diagram, true)
  }

  function TailSites(tail: Tail, k: nat): seq<SkipSite> {
    match tail
    case OpenOptions(_) => [SkipSite(k, UnbalancedOptions)]
    case OpenDiagram(_) => [SkipSite(k, UnbalancedDiagram)]
    case _ => []
  }
}
