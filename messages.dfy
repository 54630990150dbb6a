/**
 * The three XML payloads the tracer sends to the IDE: a call signature, a
 * return signature and a call-hierarchy edge. Each builder fills a list of
 * text pieces and joins them; every value is passed through the XML escape
 * function first. Each piece of the list ends with `>`, which is what lets
 * the lemmas below count the elements of a payload piece by piece.
 */
module Messages {
  import opened Text
  import opened Signatures

  /** The command ids `CMD_SIGNATURE_CALL_TRACE`, `CMD_SIGNATURE_RETURN_TRACE`, `CMD_HIERARCHY_CALL_TRACE`. */
  datatype CommandId = SignatureCallTrace | SignatureReturnTrace | HierarchyCallTrace

  /** `NetCommand(id, sequence, text)`. */
  datatype NetCommand = NetCommand(id: CommandId, seqNo: nat, text: string)

  /** The fields of a call-hierarchy record, as the text handed to the escape function. */
  datatype HierarchyCallData = HierarchyCallData(
    callerFile: string, callerName: string, callerDefLine: string,
    calleeFile: string, calleeName: string, calleeDefLine: string, calleeCallLine: string)

  /** What `makeValidXmlValue` promises here: its output never starts markup. */
  ghost predicate EscapesMarkup(escape: string -> string) {
    forall s :: '<' !in escape(s)
  }

  // ---- call signature --------------------------------------------------------

  function CallSignatureAttrs(file: string, name: string, escape: string -> string): string {
    escape(file) + "\" name=\"" + escape(name) + "\">"
  }

  /** `<call_signature file="…" name="…">`. */
  function CallSignatureOpen(file: string, name: string, escape: string -> string): string {
    "<call_signature file=\"" + CallSignatureAttrs(file, name, escape)
  }

  function ArgAttrs(a: Arg, escape: string -> string): string {
    escape(a.name) + "\" type=\"" + escape(a.typeName) + "\">"
  }

  /** `<arg name="…" type="…">`. */
  function ArgOpen(a: Arg, escape: string -> string): string {
    "<arg name=\"" + ArgAttrs(a, escape)
  }

  function ArgElement(a: Arg, escape: string -> string): string {
    ArgOpen(a, escape) + "</arg>"
  }

  function ArgElements(args: seq<Arg>, escape: string -> string): (r: seq<string>)
    ensures |r| == |args|
    ensures forall i :: 0 <= i < |args| ==> r[i] == ArgElement(args[i], escape)
  {
    seq(|args|, i requires 0 <= i < |args| => ArgElement(args[i], escape))
  }

  const CallSignatureClose: string := "</call_signature>" + "</xml>"

  /** The call-signature payload: a `call_signature` element holding one `arg` element per argument, in order. */
  function SignaturePayload(d: SignatureData, escape: string -> string): string {
    "<xml>" + CallSignatureOpen(d.file, d.name, escape)
      + Join("", ArgElements(d.args, escape)) + CallSignatureClose
  }

  function SignatureCommand(d: SignatureData, escape: string -> string): NetCommand {
    NetCommand(SignatureCallTrace, 0, SignaturePayload(d, escape))
  }

  lemma ArgElementsAppend(args: seq<Arg>, a: Arg, escape: string -> string)
    ensures ArgElements(args + [a], escape) == ArgElements(args, escape) + [ArgElement(a, escape)]
  {
  }

  /** The list the builder fills joins to the payload. */
  lemma SignatureListJoin(d: SignatureData, escape: string -> string)
    ensures Join("", ["<xml>", CallSignatureOpen(d.file, d.name, escape)] + ArgElements(d.args, escape)
      + [CallSignatureClose]) == SignaturePayload(d, escape)
  {
    var head := ["<xml>", CallSignatureOpen(d.file, d.name, escape)];
    JoinAround(head, ArgElements(d.args, escape), CallSignatureClose);
    JoinTwo("<xml>", CallSignatureOpen(d.file, d.name, escape));
  }

  /** `create_signature_message`. */
  method CreateSignatureMessage(signature: Signature, escape: string -> string) returns (cmd: NetCommand)
    ensures cmd == SignatureCommand(signature.Data(), escape)
  {
    var head := ["<xml>", CallSignatureOpen(signature.file, signature.name, escape)];
    var cmdTextList := head;
    for i := 0 to |signature.args|
      invariant cmdTextList == head + ArgElements(signature.args[..i], escape)
    {
      var arg := signature.args[i];
      assert signature.args[..i + 1] == signature.args[..i] + [arg];
      ArgElementsAppend(signature.args[..i], arg, escape);
      cmdTextList := cmdTextList + [ArgElement(arg, escape)];
    }
    assert signature.args[..|signature.args|] == signature.args;
    cmdTextList := cmdTextList + [CallSignatureClose];
    var cmdText := Join("", cmdTextList);
    SignatureListJoin(signature.Data(), escape);
    cmd := NetCommand(SignatureCallTrace, 0, cmdText);
  }

  // ---- return signature ------------------------------------------------------

  function ReturnSignatureAttrs(file: string, name: string, returnInfo: string, escape: string -> string): string {
    escape(file) + "\" name=\"" + escape(name) + "\" return_type=\"" + escape(returnInfo) + "\">"
  }

  /** `<return_signature file="…" name="…" return_type="…">`. */
  function ReturnSignatureOpen(file: string, name: string, returnInfo: string, escape: string -> string): string {
    "<return_signature file=\"" + ReturnSignatureAttrs(file, name, returnInfo, escape)
  }

  const ReturnSignatureClose: string := "</return_signature>" + "</xml>"

  /** The return-signature payload: one `return_signature` element and nothing inside it. */
  function ReturnPayload(d: SignatureData, returnInfo: string, escape: string -> string): string {
    "<xml>" + ReturnSignatureOpen(d.file, d.name, returnInfo, escape) + ReturnSignatureClose
  }

  function ReturnCommand(d: SignatureData, returnInfo: string, escape: string -> string): NetCommand {
    NetCommand(SignatureReturnTrace, 0, ReturnPayload(d, returnInfo, escape))
  }

  /** `create_return_signature_message`. */
  method CreateReturnSignatureMessage(signature: Signature, returnInfo: string, escape: string -> string)
    returns (cmd: NetCommand)
    ensures cmd == ReturnCommand(signature.Data(), returnInfo, escape)
  {
    var cmdTextList := ["<xml>"];
    cmdTextList := cmdTextList + [ReturnSignatureOpen(signature.file, signature.name, returnInfo, escape)];
    cmdTextList := cmdTextList + [ReturnSignatureClose];
    var cmdText := Join("", cmdTextList);
    JoinThree(cmdTextList);
    cmd := NetCommand(SignatureReturnTrace, 0, cmdText);
  }

  // ---- call hierarchy --------------------------------------------------------

  function CallerAttrs(h: HierarchyCallData, escape: string -> string): string {
    escape(h.callerFile) + "\" name=\"" + escape(h.callerName) + "\" def_line=\"" + escape(h.callerDefLine) + "\">"
  }

  /** `<caller file="…" name="…" def_line="…">`. */
  function CallerOpen(h: HierarchyCallData, escape: string -> string): string {
    "<caller file=\"" + CallerAttrs(h, escape)
  }

  function CalleeAttrs(h: HierarchyCallData, escape: string -> string): string {
    escape(h.calleeFile) + "\" name=\"" + escape(h.calleeName) + "\" def_line=\"" + escape(h.calleeDefLine)
      + "\" call_line=\"" + escape(h.calleeCallLine) + "\">"
  }

  /** `<callee file="…" name="…" def_line="…" call_line="…">`. */
  function CalleeOpen(h: HierarchyCallData, escape: string -> string): string {
    "<callee file=\"" + CalleeAttrs(h, escape)
  }

  /** The one formatted piece: an empty `caller` element followed by an empty `callee` element. */
  function CallerCallee(h: HierarchyCallData, escape: string -> string): string {
    CallerOpen(h, escape) + "</caller>" + CalleeOpen(h, escape) + "</callee>"
  }

  const HierarchyOpen: string := "<xml>" + "<hierarchy_call>"
  const HierarchyClose: string := "</hierarchy_call>" + "</xml>"

  function HierarchyPayload(h: HierarchyCallData, escape: string -> string): string {
    HierarchyOpen + CallerCallee(h, escape) + HierarchyClose
  }

  function HierarchyCommand(h: HierarchyCallData, escape: string -> string): NetCommand {
    NetCommand(HierarchyCallTrace, 0, HierarchyPayload(h, escape))
  }

  /** `create_hierarchy_call_message`. */
  method CreateHierarchyCallMessage(h: HierarchyCallData, escape: string -> string) returns (cmd: NetCommand)
    ensures cmd == HierarchyCommand(h, escape)
  {
    var cmdTextList := [HierarchyOpen];
    cmdTextList := cmdTextList + [CallerCallee(h, escape)];
    cmdTextList := cmdTextList + [HierarchyClose];
    var cmdText := Join("", cmdTextList);
    JoinThree(cmdTextList);
    cmd := NetCommand(HierarchyCallTrace, 0, cmdText);
  }


  // ---- what the payloads contain ---------------------------------------------

  /** The `call_signature` attribute text holds no `<` once its values have been escaped. */
  lemma CallSignatureAttrsArePlain(file: string, name: string, escape: string -> string)
    requires EscapesMarkup(escape)
    ensures '<' !in CallSignatureAttrs(file, name, escape)
  {
    assert '<' !in escape(file) && '<' !in escape(name);
  }

  /** The `arg` attribute text holds no `<` once its values have been escaped. */
  lemma ArgAttrsArePlain(a: Arg, escape: string -> string)
    requires EscapesMarkup(escape)
    ensures '<' !in ArgAttrs(a, escape)
  {
    assert '<' !in escape(a.name) && '<' !in escape(a.typeName);
  }

  /** The `return_signature` attribute text holds no `<` once its values have been escaped. */
  lemma ReturnSignatureAttrsArePlain(file: string, name: string, returnInfo: string, escape: string -> string)
    requires EscapesMarkup(escape)
    ensures '<' !in ReturnSignatureAttrs(file, name, returnInfo, escape)
  {
    assert '<' !in escape(file) && '<' !in escape(name) && '<' !in escape(returnInfo);
  }

  /** The `caller` and `callee` attribute texts hold no `<` once their values have been escaped. */
  lemma HierarchyAttrsArePlain(h: HierarchyCallData, escape: string -> string)
    requires EscapesMarkup(escape)
    ensures '<' !in CallerAttrs(h, escape) && '<' !in CalleeAttrs(h, escape)
  {
    assert '<' !in escape(h.callerFile) && '<' !in escape(h.callerName) && '<' !in escape(h.callerDefLine);
    assert '<' !in escape(h.calleeFile) && '<' !in escape(h.calleeName);
    assert '<' !in escape(h.calleeDefLine) && '<' !in escape(h.calleeCallLine);
  }

  /**
   * An opening tag (a literal start whose only `<` is its first character,
   * then attribute text without `<`) counts as one occurrence of `p` exactly
   * when its literal start begins with `p`.
   */
  lemma OpenTagCount(p: string, lit: string, rest: string)
    requires |p| > 0 && p[0] == '<'
    requires |p| <= |lit| && HeadOnly(lit)
    requires '<' !in rest
    ensures Count(p, lit + rest) == if StartsWith(lit, p) then 1 else 0
  {
    var s := lit + rest;
    HeadOnlyAppend(lit, rest);
    CountHead(p, s);
    assert s[..|p|] == lit[..|p|];
  }

  /** A closing tag: `</`, then no other `<`, ending with `>`. */
  predicate ClosingTag(s: string) {
    HeadOnly(s) && |s| >= 2 && s[1] == '/' && s[|s| - 1] == '>'
  }

  // Facts about the literal tag texts, each group proved on its own so that
  // the counting lemmas only ever use them, never recompute them.

  lemma XmlLits()
    ensures HeadOnly("<xml>") && "<xml>"[1] == 'x' && "<xml>"[|"<xml>"| - 1] == '>'
    ensures ClosingTag("</xml>")
  {
  }

  lemma ArgLits()
    ensures HeadOnly("<arg name=\"") && |"<arg name=\""| == 11 && "<arg name=\""[1] == 'a'
    ensures ClosingTag("</arg>")
  {
  }

  lemma CallSignatureLits()
    ensures HeadOnly("<call_signature file=\"") && |"<call_signature file=\""| == 22
    ensures ClosingTag("</call_signature>")
  {
  }

  lemma ReturnSignatureLits()
    ensures HeadOnly("<return_signature file=\"") && |"<return_signature file=\""| == 24
    ensures ClosingTag("</return_signature>")
  {
  }

  lemma CallerLits()
    ensures HeadOnly("<caller file=\"") && |"<caller file=\""| == 14
    ensures ClosingTag("</caller>")
  {
  }

  lemma CalleeLits()
    ensures HeadOnly("<callee file=\"") && |"<callee file=\""| == 14
    ensures ClosingTag("</callee>")
  {
  }

  lemma HierarchyCallLits()
    ensures HeadOnly("<hierarchy_call>") && "<hierarchy_call>"[1] == 'h'
    ensures "<hierarchy_call>"[|"<hierarchy_call>"| - 1] == '>'
    ensures ClosingTag("</hierarchy_call>")
  {
  }

  /** A pattern of the shape the lemmas count: an opening-tag start, never a closing tag, without `>`. */
  predicate TagPattern(p: string) {
    |p| >= 2 && p[0] == '<' && p[1] != '/' && '>' !in p
  }

  /** One `arg` element holds `p` once if `p` starts the `arg` tag, and not at all otherwise. */
  lemma ArgElementCount(a: Arg, escape: string -> string, p: string)
    requires EscapesMarkup(escape)
    requires TagPattern(p) && (|p| <= 11 || p[1] != 'a')
    ensures Count(p, ArgElement(a, escape)) == if StartsWith("<arg name=\"", p) then 1 else 0
  {
    ArgAttrsArePlain(a, escape);
    ArgLits();
    if |p| <= 11 {
      OpenTagCount(p, "<arg name=\"", ArgAttrs(a, escape));
    } else {
      HeadOnlyAppend("<arg name=\"", ArgAttrs(a, escape));
      MismatchCount(p, ArgOpen(a, escape), 1);
    }
    MismatchCount(p, "</arg>", 1);
    CountConcat(p, ArgOpen(a, escape), "</arg>");
  }

  lemma ArgElementsSplit(args: seq<Arg>, escape: string -> string)
    requires |args| > 0
    ensures ArgElements(args, escape) == [ArgElement(args[0], escape)] + ArgElements(args[1..], escape)
  {
  }

  /**
   * The joined `arg` elements hold one occurrence of `p` per argument when `p`
   * starts the `arg` tag, and none otherwise; the join ends with `>` unless empty.
   */
  lemma {:induction false} ArgElementsCount(args: seq<Arg>, escape: string -> string, p: string)
    requires EscapesMarkup(escape)
    requires TagPattern(p) && (|p| <= 11 || p[1] != 'a')
    ensures var text := Join("", ArgElements(args, escape));
      Count(p, text) == (if StartsWith("<arg name=\"", p) then |args| else 0) &&
      (|text| > 0 ==> text[|text| - 1] == '>')
    decreases |args|
  {
    if |args| > 0 {
      var first := ArgElement(args[0], escape);
      var rest := Join("", ArgElements(args[1..], escape));
      ArgElementsSplit(args, escape);
      ConcatAppend([first], ArgElements(args[1..], escape));
      ArgElementsCount(args[1..], escape, p);
      ArgElementCount(args[0], escape, p);
      CountConcat(p, first, rest);
    }
  }

  /** Two literal tags, each differing from `p` in its second character, hold no occurrence of `p`. */
  lemma TwoTagsCount(p: string, first: string, second: string)
    requires TagPattern(p)
    requires HeadOnly(first) && |first| >= 2 && first[1] != p[1] && first[|first| - 1] == '>'
    requires HeadOnly(second) && |second| >= 2 && second[1] != p[1]
    ensures Count(p, first + second) == 0
  {
    MismatchCount(p, first, 1);
    MismatchCount(p, second, 1);
    CountConcat(p, first, second);
  }

  /** The closing text of the call-signature payload contains no opening tag. */
  lemma CallSignatureCloseCount(p: string)
    requires TagPattern(p) && p[1] != 'x'
    ensures Count(p, CallSignatureClose) == 0
  {
    CallSignatureLits();
    XmlLits();
    TwoTagsCount(p, "</call_signature>", "</xml>");
  }

  /** The `call_signature` opening tag holds `p` once exactly when its literal start begins with `p`. */
  lemma CallSignatureOpenCount(file: string, name: string, escape: string -> string, p: string)
    requires '<' !in CallSignatureAttrs(file, name, escape)
    requires TagPattern(p) && |p| <= 22
    ensures Count(p, CallSignatureOpen(file, name, escape)) ==
      if StartsWith("<call_signature file=\"", p) then 1 else 0
  {
    CallSignatureLits();
    OpenTagCount(p, "<call_signature file=\"", CallSignatureAttrs(file, name, escape));
  }

  /** The payload's first two pieces: `<xml>` and the `call_signature` tag. */
  lemma SignatureHeadCount(file: string, name: string, escape: string -> string, p: string)
    requires '<' !in CallSignatureAttrs(file, name, escape)
    requires TagPattern(p) && |p| <= 22 && p[1] != 'x'
    ensures var head := "<xml>" + CallSignatureOpen(file, name, escape);
      Count(p, head) == (if StartsWith("<call_signature file=\"", p) then 1 else 0) &&
      head[|head| - 1] == '>'
  {
    CallSignatureOpenCount(file, name, escape, p);
    XmlLits();
    MismatchCount(p, "<xml>", 1);
    CountConcat(p, "<xml>", CallSignatureOpen(file, name, escape));
  }

  /** A pattern the call-signature counting handles: no longer than the `call_signature` tag start, and not `<xml`. */
  predicate SignaturePattern(p: string) {
    TagPattern(p) && |p| <= 22 && p[1] != 'x' && (|p| <= 11 || p[1] != 'a')
  }

  /** The payload up to its closing text: the `call_signature` tag, then the `arg` elements. */
  lemma SignatureBodyCount(d: SignatureData, escape: string -> string, p: string)
    requires EscapesMarkup(escape)
    requires SignaturePattern(p)
    ensures var text := "<xml>" + CallSignatureOpen(d.file, d.name, escape) + Join("", ArgElements(d.args, escape));
      Count(p, text) ==
        (if StartsWith("<call_signature file=\"", p) then 1 else 0)
        + (if StartsWith("<arg name=\"", p) then |d.args| else 0) &&
      text[|text| - 1] == '>'
  {
    var open := CallSignatureOpen(d.file, d.name, escape);
    var head := "<xml>" + open;
    var body := Join("", ArgElements(d.args, escape));
    CallSignatureAttrsArePlain(d.file, d.name, escape);
    SignatureHeadCount(d.file, d.name, escape, p);
    ArgElementsCount(d.args, escape, p);
    CountConcat(p, head, body);
    EndsWithTag(head, body);
  }

  /** Counting tags in the call-signature payload: the `call_signature` tag plus the `arg` elements. */
  lemma SignaturePayloadCount(d: SignatureData, escape: string -> string, p: string)
    requires EscapesMarkup(escape)
    requires SignaturePattern(p)
    ensures Count(p, SignaturePayload(d, escape)) ==
      (if StartsWith("<call_signature file=\"", p) then 1 else 0)
      + (if StartsWith("<arg name=\"", p) then |d.args| else 0)
  {
    SignatureBodyCount(d, escape, p);
    CallSignatureCloseCount(p);
    CountConcat(p, "<xml>" + CallSignatureOpen(d.file, d.name, escape) + Join("", ArgElements(d.args, escape)),
      CallSignatureClose);
  }

  /** The two patterns looked for in a call-signature payload, and which tag each starts. */
  lemma SignatureProbes()
    ensures TagPattern("<arg ") && |"<arg "| == 5 && "<arg "[1] == 'a'
    ensures TagPattern("<call_signature ") && |"<call_signature "| == 16 && "<call_signature "[1] == 'c'
    ensures StartsWith("<arg name=\"", "<arg ") && !StartsWith("<call_signature file=\"", "<arg ")
    ensures StartsWith("<call_signature file=\"", "<call_signature ") && !StartsWith("<arg name=\"", "<call_signature ")
  {
    DiffersAt("<call_signature file=\"", "<arg ", 1);
    DiffersAt("<arg name=\"", "<call_signature ", 1);
  }

  /**
   * The call-signature payload holds exactly one `arg` element per argument
   * (in argument order, by its definition) inside exactly one `call_signature` element.
   */
  lemma SignatureArgCount(d: SignatureData, escape: string -> string)
    requires EscapesMarkup(escape)
    ensures Count("<arg ", SignaturePayload(d, escape)) == |d.args|
    ensures Count("<call_signature ", SignaturePayload(d, escape)) == 1
  {
    SignatureProbes();
    SignaturePayloadCount(d, escape, "<arg ");
    SignaturePayloadCount(d, escape, "<call_signature ");
  }

  /** The `return_signature` opening tag holds `p` once exactly when its literal start begins with `p`. */
  lemma ReturnSignatureOpenCount(file: string, name: string, returnInfo: string, escape: string -> string, p: string)
    requires '<' !in ReturnSignatureAttrs(file, name, returnInfo, escape)
    requires TagPattern(p) && |p| <= 24
    ensures Count(p, ReturnSignatureOpen(file, name, returnInfo, escape)) ==
      if StartsWith("<return_signature file=\"", p) then 1 else 0
  {
    ReturnSignatureLits();
    OpenTagCount(p, "<return_signature file=\"", ReturnSignatureAttrs(file, name, returnInfo, escape));
  }

  /** The return payload up to its closing text. */
  lemma ReturnHeadCount(file: string, name: string, returnInfo: string, escape: string -> string, p: string)
    requires '<' !in ReturnSignatureAttrs(file, name, returnInfo, escape)
    requires TagPattern(p) && |p| <= 24 && p[1] != 'x'
    ensures var head := "<xml>" + ReturnSignatureOpen(file, name, returnInfo, escape);
      Count(p, head) == (if StartsWith("<return_signature file=\"", p) then 1 else 0) &&
      head[|head| - 1] == '>'
  {
    ReturnSignatureOpenCount(file, name, returnInfo, escape, p);
    XmlLits();
    MismatchCount(p, "<xml>", 1);
    CountConcat(p, "<xml>", ReturnSignatureOpen(file, name, returnInfo, escape));
  }

  /** The closing text of the return payload contains no opening tag. */
  lemma ReturnSignatureCloseCount(p: string)
    requires TagPattern(p) && p[1] != 'x'
    ensures Count(p, ReturnSignatureClose) == 0
  {
    ReturnSignatureLits();
    XmlLits();
    TwoTagsCount(p, "</return_signature>", "</xml>");
  }

  /** Counting tags in the return payload: only the `return_signature` tag can match. */
  lemma ReturnPayloadCount(d: SignatureData, returnInfo: string, escape: string -> string, p: string)
    requires EscapesMarkup(escape)
    requires TagPattern(p) && |p| <= 24 && p[1] != 'x'
    ensures Count(p, ReturnPayload(d, returnInfo, escape)) ==
      if StartsWith("<return_signature file=\"", p) then 1 else 0
  {
    ReturnSignatureAttrsArePlain(d.file, d.name, returnInfo, escape);
    ReturnHeadCount(d.file, d.name, returnInfo, escape, p);
    ReturnSignatureCloseCount(p);
    CountConcat(p, "<xml>" + ReturnSignatureOpen(d.file, d.name, returnInfo, escape), ReturnSignatureClose);
  }

  /** The two patterns looked for in a return payload, and which tag each starts. */
  lemma ReturnProbes()
    ensures TagPattern("<arg ") && |"<arg "| == 5 && "<arg "[1] == 'a'
    ensures TagPattern("<return_signature ") && |"<return_signature "| == 18 && "<return_signature "[1] == 'r'
    ensures StartsWith("<return_signature file=\"", "<return_signature ")
    ensures !StartsWith("<return_signature file=\"", "<arg ")
  {
    DiffersAt("<return_signature file=\"", "<arg ", 1);
  }

  /** The return payload holds a single `return_signature` element and no `arg` element. */
  lemma ReturnPayloadShape(d: SignatureData, returnInfo: string, escape: string -> string)
    requires EscapesMarkup(escape)
    ensures Count("<return_signature ", ReturnPayload(d, returnInfo, escape)) == 1
    ensures Count("<arg ", ReturnPayload(d, returnInfo, escape)) == 0
  {
    ReturnProbes();
    ReturnPayloadCount(d, returnInfo, escape, "<return_signature ");
    ReturnPayloadCount(d, returnInfo, escape, "<arg ");
  }

  /** The empty `caller` element holds `p` once exactly when the `caller` tag's literal start begins with `p`. */
  lemma CallerElementCount(h: HierarchyCallData, escape: string -> string, p: string)
    requires '<' !in CallerAttrs(h, escape)
    requires TagPattern(p) && |p| <= 14
    ensures Count(p, CallerOpen(h, escape) + "</caller>") ==
      if StartsWith("<caller file=\"", p) then 1 else 0
  {
    CallerLits();
    OpenTagCount(p, "<caller file=\"", CallerAttrs(h, escape));
    MismatchCount(p, "</caller>", 1);
    CountConcat(p, CallerOpen(h, escape), "</caller>");
  }

  /** The empty `callee` element holds `p` once exactly when the `callee` tag's literal start begins with `p`. */
  lemma CalleeElementCount(h: HierarchyCallData, escape: string -> string, p: string)
    requires '<' !in CalleeAttrs(h, escape)
    requires TagPattern(p) && |p| <= 14
    ensures Count(p, CalleeOpen(h, escape) + "</callee>") ==
      if StartsWith("<callee file=\"", p) then 1 else 0
  {
    CalleeLits();
    OpenTagCount(p, "<callee file=\"", CalleeAttrs(h, escape));
    MismatchCount(p, "</callee>", 1);
    CountConcat(p, CalleeOpen(h, escape), "</callee>");
  }

  /** The formatted piece of the hierarchy payload: the `caller` element, then the `callee` element. */
  lemma CallerCalleeCount(h: HierarchyCallData, escape: string -> string, p: string)
    requires EscapesMarkup(escape)
    requires TagPattern(p) && |p| <= 14
    ensures Count(p, CallerCallee(h, escape)) ==
      (if StartsWith("<caller file=\"", p) then 1 else 0)
      + (if StartsWith("<callee file=\"", p) then 1 else 0)
  {
    HierarchyAttrsArePlain(h, escape);
    CallerElementCount(h, escape, p);
    CalleeElementCount(h, escape, p);
    var caller := CallerOpen(h, escape) + "</caller>";
    var callee := CalleeOpen(h, escape) + "</callee>";
    assert CallerCallee(h, escape) == caller + callee;
    CountConcat(p, caller, callee);
  }

  /** The literal start of the hierarchy payload contains no opening tag of interest. */
  lemma HierarchyOpenCount(p: string)
    requires TagPattern(p) && p[1] != 'x' && p[1] != 'h'
    ensures Count(p, HierarchyOpen) == 0
  {
    XmlLits();
    HierarchyCallLits();
    TwoTagsCount(p, "<xml>", "<hierarchy_call>");
  }

  /** The literal end of the hierarchy payload contains no opening tag. */
  lemma HierarchyCloseCount(p: string)
    requires TagPattern(p) && p[1] != 'x'
    ensures Count(p, HierarchyClose) == 0
  {
    HierarchyCallLits();
    XmlLits();
    TwoTagsCount(p, "</hierarchy_call>", "</xml>");
  }

  /** Counting tags in the hierarchy payload: the `caller` tag and the `callee` tag. */
  lemma HierarchyPayloadCount(h: HierarchyCallData, escape: string -> string, p: string)
    requires EscapesMarkup(escape)
    requires TagPattern(p) && |p| <= 14 && p[1] != 'x' && p[1] != 'h'
    ensures Count(p, HierarchyPayload(h, escape)) ==
      (if StartsWith("<caller file=\"", p) then 1 else 0)
      + (if StartsWith("<callee file=\"", p) then 1 else 0)
  {
    CallerCalleeCount(h, escape, p);
    HierarchyOpenCount(p);
    HierarchyCloseCount(p);
    var middle := CallerCallee(h, escape);
    assert middle[|middle| - 1] == '>';
    CountConcat(p, HierarchyOpen, middle);
    CountConcat(p, HierarchyOpen + middle, HierarchyClose);
  }

  /** The two patterns looked for in a hierarchy payload, and which tag each starts. */
  lemma HierarchyProbes()
    ensures TagPattern("<caller ") && |"<caller "| == 8 && "<caller "[1] == 'c'
    ensures TagPattern("<callee ") && |"<callee "| == 8 && "<callee "[1] == 'c'
    ensures StartsWith("<caller file=\"", "<caller ") && !StartsWith("<callee file=\"", "<caller ")
    ensures StartsWith("<callee file=\"", "<callee ") && !StartsWith("<caller file=\"", "<callee ")
  {
    DiffersAt("<callee file=\"", "<caller ", 6);
    DiffersAt("<caller file=\"", "<callee ", 6);
  }

  /** The hierarchy payload holds one `caller` element and one `callee` element. */
  lemma HierarchyPayloadShape(h: HierarchyCallData, escape: string -> string)
    requires EscapesMarkup(escape)
    ensures Count("<caller ", HierarchyPayload(h, escape)) == 1
    ensures Count("<callee ", HierarchyPayload(h, escape)) == 1
  {
    HierarchyProbes();
    HierarchyPayloadCount(h, escape, "<caller ");
    HierarchyPayloadCount(h, escape, "<callee ");
  }
}
