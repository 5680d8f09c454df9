/** The GoPlus security tool: finds a command keyword in free text, cuts the
    words after it into positional arguments and dispatches them to one of
    seven security checks. The checks' network calls are a parameter `api`. */
module SecurityTool {
  import opened Wrappers
  import opened Words

  /** The seven check methods a keyword can name. */
  datatype Handler =
    | CheckTokenSecurity
    | CheckMaliciousAddress
    | CheckNftSecurity
    | CheckApprovalSecurity
    | CheckPhishingSite
    | CheckAbiDecode
    | CheckDappSecurity

  const TokenKeyword := "check_token_security"
  const AddressKeyword := "check_malicious_address"
  const NftKeyword := "check_nft_security"
  const ApprovalKeyword := "check_approval_security"
  const PhishingKeyword := "check_phishing_site"
  const AbiKeyword := "check_abi_decode"
  const DappKeyword := "check_dapp_security"

  /** The keyword table: each keyword names the check method of the same name. */
  const Commands: map<string, Handler> := map[
    TokenKeyword := CheckTokenSecurity,
    AddressKeyword := CheckMaliciousAddress,
    NftKeyword := CheckNftSecurity,
    ApprovalKeyword := CheckApprovalSecurity,
    PhishingKeyword := CheckPhishingSite,
    AbiKeyword := CheckAbiDecode,
    DappKeyword := CheckDappSecurity
  ]

  /** `word in COMMANDS`. */
  predicate IsKeyword(word: string) {
    word in Commands
  }

  /** What `get_command_for` returns: the keyword (or None) and its arguments. */
  datatype Invocation = Invocation(command: Option<string>, args: seq<string>)

  /** `words[i]` is the first keyword among `words`. */
  predicate FirstCommandAt(words: seq<string>, i: int) {
    0 <= i < |words| && IsKeyword(words[i]) &&
    forall j :: 0 <= j < i ==> !IsKeyword(words[j])
  }

  /** The first keyword among `words` and everything after it. */
  function FindCommand(words: seq<string>): (r: Invocation)
    ensures r.command.None? <==> forall i :: 0 <= i < |words| ==> !IsKeyword(words[i])
    ensures r.command.None? ==> r.args == []
    ensures r.command.Some? ==> r.command.value in Commands
  {
    if words == [] then Invocation(None, [])
    else if words[0] in Commands then Invocation(Some(words[0]), words[1..])
    else FindCommand(words[1..])
  }

  /** The command is the first keyword and the arguments are exactly the words
      after it, in order. */
  lemma {:induction false} FindCommandFirst(words: seq<string>, i: int)
    requires FirstCommandAt(words, i)
    ensures FindCommand(words) == Invocation(Some(words[i]), words[i + 1..])
  {
    if i > 0 {
      assert FirstCommandAt(words[1..], i - 1);
      FindCommandFirst(words[1..], i - 1);
      assert words[1..][i..] == words[i + 1..];
    }
  }

  /** The specification of `get_command_for`. */
  function CommandFor(text: string): Invocation {
    FindCommand(Split(text))
  }

  /** Text that contains no keyword yields no command and no arguments. */
  lemma CommandForNone(text: string)
    requires forall i :: 0 <= i < |Split(text)| ==> !IsKeyword(Split(text)[i])
    ensures CommandFor(text) == Invocation(None, [])
  {
  }

  /** Text that reads "K a1 ... an" yields command K and arguments a1 ... an,
      whatever the arguments are (keywords included). */
  lemma CommandForJoin(keyword: string, args: seq<string>)
    requires keyword in Commands
    requires forall k :: 0 <= k < |args| ==> IsWord(args[k])
    ensures CommandFor(Join([keyword] + args)) == Invocation(Some(keyword), args)
  {
    KeywordsAreWords(keyword);
    var words := [keyword] + args;
    forall k | 0 <= k < |words| ensures IsWord(words[k]) {
      if k > 0 { assert words[k] == args[k - 1]; }
    }
    SplitJoin(words);
    assert words[1..] == args;
  }

  /** Every keyword is a single word, so `split()` can produce it. */
  lemma KeywordsAreWords(keyword: string)
    requires keyword in Commands
    ensures IsWord(keyword)
  {
    assert keyword in {TokenKeyword, AddressKeyword, NftKeyword, ApprovalKeyword,
                       PhishingKeyword, AbiKeyword, DappKeyword};
    assert forall k :: 0 <= k < |keyword| ==> '_' <= keyword[k] <= 'z';
    LowerCaseWord(keyword);
  }

  /** `get_command_for`: a linear search over the words with an early return. */
  method GetCommandFor(text: string) returns (r: Invocation)
    ensures r == CommandFor(text)
  {
    var words := Split(text);
    var i := 0;
    while i < |words|
      invariant 0 <= i <= |words|
      invariant forall j :: 0 <= j < i ==> !IsKeyword(words[j])
    {
      if words[i] in Commands {
        FindCommandFirst(words, i);
        return Invocation(Some(words[i]), words[i + 1..]);
      }
      i := i + 1;
    }
    return Invocation(None, []);
  }

  /** `matches`: some word of `s` is a keyword; the command found is then always
      in the keyword table. */
  function Matches(s: string): (b: bool)
    ensures b <==> exists i :: 0 <= i < |Split(s)| && IsKeyword(Split(s)[i])
    ensures b ==> CommandFor(s).command.Some? && CommandFor(s).command.value in Commands
  {
    FoundIffKeyword(Split(s));
    CommandFor(s).command.Some?
  }

  lemma FoundIffKeyword(words: seq<string>)
    ensures FindCommand(words).command.Some? <==> exists i :: 0 <= i < |words| && IsKeyword(words[i])
  {
  }

  /** The GoPlus client call each check method makes, with its arguments. */
  datatype Request =
    | TokenSecurity(chainId: string, addresses: seq<string>)
    | AddressSecurity(address: string)
    | NftSecurity(address: string, chainId: string)
    | TokenApproveSecurity(address: string, chainId: string)
    | DappSecurity(url: string)
    | SignatureDataDecode(address: string, chainId: string, data: string)
    | PhishingSiteSecurity(url: string)

  /** Python's `IndexError` for the first position read beyond the list. */
  datatype ArgumentError = IndexError(index: nat)

  /** How many positional arguments each check reads. */
  function Arity(h: Handler): nat {
    match h
    case CheckTokenSecurity => 2
    case CheckNftSecurity => 2
    case CheckApprovalSecurity => 2
    case CheckAbiDecode => 3
    case CheckMaliciousAddress => 1
    case CheckDappSecurity => 1
    case CheckPhishingSite => 1
  }

  /** The check method that issues a request. */
  function HandlerOf(req: Request): Handler {
    match req
    case TokenSecurity(_, _) => CheckTokenSecurity
    case AddressSecurity(_) => CheckMaliciousAddress
    case NftSecurity(_, _) => CheckNftSecurity
    case TokenApproveSecurity(_, _) => CheckApprovalSecurity
    case DappSecurity(_) => CheckDappSecurity
    case SignatureDataDecode(_, _, _) => CheckAbiDecode
    case PhishingSiteSecurity(_) => CheckPhishingSite
  }

  /** The request's arguments in the tool's positional order:
      address or URL first, then chain id, then data. */
  function Positional(req: Request): seq<string> {
    match req
    case TokenSecurity(chain, addresses) => addresses + [chain]
    case AddressSecurity(a) => [a]
    case NftSecurity(a, chain) => [a, chain]
    case TokenApproveSecurity(a, chain) => [a, chain]
    case DappSecurity(u) => [u]
    case SignatureDataDecode(a, chain, data) => [a, chain, data]
    case PhishingSiteSecurity(u) => [u]
  }

  /** `args[i]`, or the `IndexError` Python raises. */
  function Arg(args: seq<string>, i: nat): Result<string, ArgumentError> {
    if i < |args| then Success(args[i]) else Failure(IndexError(i))
  }

  /** The check method `h` applied to `args`: the positions it reads, in the
      order Python evaluates them (keyword arguments left to right). */
  function Handle(h: Handler, args: seq<string>): (r: Result<Request, ArgumentError>)
    ensures r.Success? <==> Arity(h) <= |args|
    ensures r.Success? ==> HandlerOf(r.value) == h && Positional(r.value) == args[..Arity(h)]
    ensures r.Failure? ==> |args| <= r.error.index < Arity(h)
    ensures r.Failure? ==> r.error.index == if h == CheckTokenSecurity then 1 else |args|
  {
    match h
    case CheckTokenSecurity =>
      var chain :- Arg(args, 1);
      var address :- Arg(args, 0);
      Success(TokenSecurity(chain, [address]))
    case CheckMaliciousAddress =>
      var address :- Arg(args, 0);
      Success(AddressSecurity(address))
    case CheckNftSecurity =>
      var address :- Arg(args, 0);
      var chain :- Arg(args, 1);
      Success(NftSecurity(address, chain))
    case CheckApprovalSecurity =>
      var address :- Arg(args, 0);
      var chain :- Arg(args, 1);
      Success(TokenApproveSecurity(address, chain))
    case CheckDappSecurity =>
      var url :- Arg(args, 0);
      Success(DappSecurity(url))
    case CheckAbiDecode =>
      var address :- Arg(args, 0);
      var chain :- Arg(args, 1);
      var data :- Arg(args, 2);
      Success(SignatureDataDecode(address, chain, data))
    case CheckPhishingSite =>
      var url :- Arg(args, 0);
      Success(PhishingSiteSecurity(url))
  }

  /** A block of tool input or output: text, or anything else (an image, say). */
  datatype ToolBlock = Text(text: string) | NonText

  /** What `run` ends with: the output blocks, the "Invalid command" string, or
      the `IndexError` a check raised. */
  datatype RunOutcome = Output(blocks: seq<ToolBlock>) | InvalidCommand | Raised(error: ArgumentError)

  /** Output already produced, in front of whatever the rest of the run gives. */
  function Prepend(done: seq<ToolBlock>, rest: RunOutcome): RunOutcome {
    match rest
    case Output(blocks) => Output(done + blocks)
    case _ => rest
  }

  /** The texts of the text blocks, in order. */
  function Texts(input: seq<ToolBlock>): seq<string> {
    if input == [] then []
    else match input[0]
      case Text(t) => [t] + Texts(input[1..])
      case NonText => Texts(input[1..])
  }

  /** A request is one the text `t` asks for: it comes from the check that the
      text's keyword names and carries the first arguments after the keyword,
      as many as that check reads, in order. */
  predicate Asks(t: string, req: Request) {
    Matches(t) &&
    HandlerOf(req) == Commands[CommandFor(t).command.value] &&
    Arity(HandlerOf(req)) <= |CommandFor(t).args| &&
    Positional(req) == CommandFor(t).args[..Arity(HandlerOf(req))]
  }

  /** `block` is the rendered result of a request that `t` asks for. */
  ghost predicate AnsweredBy(t: string, block: ToolBlock, api: Request -> string) {
    exists req :: Asks(t, req) && block == Text(api(req))
  }

  /** A check and its positional arguments determine the request, so a text
      asks for at most one request. */
  lemma RequestDetermined(a: Request, b: Request)
    requires HandlerOf(a) == HandlerOf(b) && Positional(a) == Positional(b)
    requires |Positional(a)| == Arity(HandlerOf(a))
    ensures a == b
  {
    if a.TokenSecurity? {
      assert Positional(a)[1] == a.chainId && Positional(b)[1] == b.chainId;
      assert a.addresses == Positional(a)[..1] && b.addresses == Positional(b)[..1];
    } else if a.AddressSecurity? || a.DappSecurity? || a.PhishingSiteSecurity? {
      assert Positional(a)[0] == Positional(b)[0];
    } else if a.NftSecurity? || a.TokenApproveSecurity? {
      assert Positional(a)[0] == Positional(b)[0] && Positional(a)[1] == Positional(b)[1];
    } else {
      assert Positional(a)[0] == Positional(b)[0] && Positional(a)[1] == Positional(b)[1];
      assert Positional(a)[2] == Positional(b)[2];
    }
  }

  /** The handling of one text block in `run`: "Invalid command" when it names
      no command, otherwise the check's output block or its `IndexError`. */
  function Respond(t: string, api: Request -> string): (r: RunOutcome)
    ensures r == InvalidCommand <==> !Matches(t)
    ensures r.Output? <==> Accepted(t)
    ensures r.Output? ==> |r.blocks| == 1 && AnsweredBy(t, r.blocks[0], api)
    ensures r.Raised? ==> (Matches(t) &&
      Handle(Commands[CommandFor(t).command.value], CommandFor(t).args) == Failure(r.error))
    ensures r.Raised? ==> |CommandFor(t).args| <= r.error.index
  {
    if !Matches(t) then InvalidCommand
    else
      var inv := CommandFor(t);
      if inv.command.Some? && inv.command.value in Commands then
        match Handle(Commands[inv.command.value], inv.args)
        case Failure(e) => Raised(e)
        case Success(req) =>
          assert Asks(t, req) && AnsweredBy(t, Text(api(req)), api);
          Output([Text(api(req))])
      else InvalidCommand
  }

  /** A text block that `run` turns into output: it names a command and gives
      the check at least as many arguments as it reads. */
  predicate Accepted(t: string) {
    Matches(t) && Arity(Commands[CommandFor(t).command.value]) <= |CommandFor(t).args|
  }

  /** The loop of `run` over any per-block handling `respond`: blocks are
      handled left to right, non-text blocks are skipped, and the first text
      block that `respond` does not answer ends the run with its outcome. */
  function Fold(input: seq<ToolBlock>, respond: string -> RunOutcome): RunOutcome {
    if input == [] then Output([])
    else match input[0]
      case NonText => Fold(input[1..], respond)
      case Text(t) =>
        match respond(t)
        case Output(answer) => Prepend(answer, Fold(input[1..], respond))
        case failed => failed
  }

  /** The specification of `run`. */
  function Outcome(input: seq<ToolBlock>, api: Request -> string): (r: RunOutcome)
    ensures r.Output? ==> |r.blocks| == |Texts(input)|
    ensures r.Output? ==> forall k :: 0 <= k < |r.blocks| ==> r.blocks[k].Text?
  {
    var respond := t => Respond(t, api);
    FoldShape(input, respond);
    Fold(input, respond)
  }

  /** `run`: one pass over the blocks, collecting output and returning early. */
  method Run(input: seq<ToolBlock>, api: Request -> string) returns (r: RunOutcome)
    ensures r == Outcome(input, api)
  {
    var respond := t => Respond(t, api);
    var output: seq<ToolBlock> := [];
    var i := 0;
    while i < |input|
      invariant 0 <= i <= |input|
      invariant Fold(input, respond) == Prepend(output, Fold(input[i..], respond))
    {
      var block := input[i];
      assert input[i..][0] == block && input[i..][1..] == input[i + 1..];
      if block.Text? {
        if !Matches(block.text) {
          return InvalidCommand;
        }
        var inv := GetCommandFor(block.text);
        var cmd := inv.command;
        if cmd.Some? && cmd.value in Commands {
          match Handle(Commands[cmd.value], inv.args)
          case Failure(e) =>
            return Raised(e);
          case Success(req) =>
            PrependAssoc(output, [Text(api(req))], Fold(input[i + 1..], respond));
            output := output + [Text(api(req))];
        } else {
          assert false;
          return InvalidCommand;
        }
      }
      i := i + 1;
    }
    assert output + [] == output;
    return Output(output);
  }

  lemma PrependAssoc(a: seq<ToolBlock>, b: seq<ToolBlock>, r: RunOutcome)
    ensures Prepend(a, Prepend(b, r)) == Prepend(a + b, r)
  {
    if r.Output? {
      assert a + (b + r.blocks) == (a + b) + r.blocks;
    }
  }

  /** A handling that answers each block with one text block gives, when the run
      succeeds, one text block per text block of the input. */
  lemma {:induction false} FoldShape(input: seq<ToolBlock>, respond: string -> RunOutcome)
    requires forall t :: respond(t).Output? ==> |respond(t).blocks| == 1 && respond(t).blocks[0].Text?
    ensures Fold(input, respond).Output? ==> |Fold(input, respond).blocks| == |Texts(input)|
    ensures Fold(input, respond).Output? ==>
      forall k :: 0 <= k < |Fold(input, respond).blocks| ==> Fold(input, respond).blocks[k].Text?
  {
    if input != [] {
      FoldShape(input[1..], respond);
    }
  }

  /** Non-text blocks contribute nothing, wherever they stand. */
  lemma {:induction false} FoldSkipsNonText(a: seq<ToolBlock>, b: seq<ToolBlock>, respond: string -> RunOutcome)
    ensures Fold(a + [NonText] + b, respond) == Fold(a + b, respond)
  {
    if a == [] {
      assert (a + [NonText] + b)[1..] == b;
      assert a + b == b;
    } else {
      assert (a + [NonText] + b)[0] == (a + b)[0] == a[0];
      assert (a + [NonText] + b)[1..] == a[1..] + [NonText] + b;
      assert (a + b)[1..] == a[1..] + b;
      FoldSkipsNonText(a[1..], b, respond);
    }
  }

  /** When every text block is answered with one block, the run outputs those
      blocks in input order. */
  lemma {:induction false} FoldAllAnswered(input: seq<ToolBlock>, respond: string -> RunOutcome)
    requires forall k :: 0 <= k < |Texts(input)| ==>
      respond(Texts(input)[k]).Output? && |respond(Texts(input)[k]).blocks| == 1
    ensures Fold(input, respond).Output?
    ensures |Fold(input, respond).blocks| == |Texts(input)|
    ensures forall k :: 0 <= k < |Texts(input)| ==>
      Fold(input, respond).blocks[k] == respond(Texts(input)[k]).blocks[0]
  {
    if input != [] {
      var rest := input[1..];
      var texts, more := Texts(input), Texts(rest);
      if input[0].NonText? {
        assert texts == more;
        FoldAllAnswered(rest, respond);
      } else {
        var t := input[0].text;
        assert texts == [t] + more;
        assert respond(texts[0]).Output?;
        forall k | 0 <= k < |more|
          ensures respond(more[k]).Output? && |respond(more[k]).blocks| == 1
        {
          assert more[k] == texts[k + 1];
        }
        FoldAllAnswered(rest, respond);
        var out := Fold(input, respond).blocks;
        assert out == respond(t).blocks + Fold(rest, respond).blocks;
        forall k | 0 <= k < |texts|
          ensures out[k] == respond(texts[k]).blocks[0]
        {
          if k > 0 {
            assert texts[k] == more[k - 1];
          }
        }
      }
    }
  }

  /** The first text block that is not answered decides the run; output from
      earlier blocks is discarded. */
  lemma {:induction false} FoldFirstUnanswered(input: seq<ToolBlock>, respond: string -> RunOutcome, k: nat)
    requires k < |Texts(input)| && !respond(Texts(input)[k]).Output?
    requires forall j :: 0 <= j < k ==> respond(Texts(input)[j]).Output?
    ensures Fold(input, respond) == respond(Texts(input)[k])
  {
    var rest := input[1..];
    var texts, more := Texts(input), Texts(rest);
    if input[0].NonText? {
      assert texts == more;
      FoldFirstUnanswered(rest, respond, k);
    } else {
      assert texts == [input[0].text] + more;
      if k > 0 {
        assert respond(texts[0]).Output?;
        forall j | 0 <= j < k - 1
          ensures respond(more[j]).Output?
        {
          assert more[j] == texts[j + 1];
        }
        FoldFirstUnanswered(rest, respond, k - 1);
      }
    }
  }

  /** The run succeeds exactly when every text block is answered. */
  lemma {:induction false} FoldOutputIff(input: seq<ToolBlock>, respond: string -> RunOutcome)
    ensures Fold(input, respond).Output? <==>
      forall k :: 0 <= k < |Texts(input)| ==> respond(Texts(input)[k]).Output?
  {
    if input != [] {
      var rest := input[1..];
      FoldOutputIff(rest, respond);
      if input[0].NonText? {
        assert Texts(input) == Texts(rest);
      } else {
        var t := input[0].text;
        assert Texts(input) == [t] + Texts(rest);
        if respond(t).Output? {
          if forall k :: 0 <= k < |Texts(rest)| ==> respond(Texts(rest)[k]).Output? {
            forall k | 0 <= k < |Texts(input)| ensures respond(Texts(input)[k]).Output? {
              if k > 0 { assert Texts(input)[k] == Texts(rest)[k - 1]; }
            }
          } else {
            var k :| 0 <= k < |Texts(rest)| && !respond(Texts(rest)[k]).Output?;
            assert Texts(input)[k + 1] == Texts(rest)[k];
          }
        } else {
          assert !respond(Texts(input)[0]).Output?;
        }
      }
    }
  }

  /** Non-text blocks in the input of `run` contribute nothing. */
  lemma OutcomeSkipsNonText(a: seq<ToolBlock>, b: seq<ToolBlock>, api: Request -> string)
    ensures Outcome(a + [NonText] + b, api) == Outcome(a + b, api)
  {
    FoldSkipsNonText(a, b, t => Respond(t, api));
  }

  /** When every text block names a command with enough arguments, `run`
      outputs one block per text block, in input order: the k-th output block is
      the answer to the k-th text block. An input without text blocks (the
      empty input among them) gives an empty list. */
  lemma OutcomeAllAccepted(input: seq<ToolBlock>, api: Request -> string)
    requires forall k :: 0 <= k < |Texts(input)| ==> Accepted(Texts(input)[k])
    ensures Outcome(input, api).Output?
    ensures |Outcome(input, api).blocks| == |Texts(input)|
    ensures forall k :: 0 <= k < |Texts(input)| ==>
      Outcome(input, api).blocks[k] == Respond(Texts(input)[k], api).blocks[0]
  {
    var respond := t => Respond(t, api);
    forall k | 0 <= k < |Texts(input)|
      ensures respond(Texts(input)[k]).Output? && |respond(Texts(input)[k]).blocks| == 1
    {
      assert Accepted(Texts(input)[k]);
    }
    FoldAllAnswered(input, respond);
  }

  /** When every text block names a command with enough arguments, the k-th
      output block of `run` is the rendered result of the request the k-th text
      block asks for. */
  lemma OutcomeAnswers(input: seq<ToolBlock>, api: Request -> string)
    requires forall k :: 0 <= k < |Texts(input)| ==> Accepted(Texts(input)[k])
    ensures Outcome(input, api).Output? && |Outcome(input, api).blocks| == |Texts(input)|
    ensures forall k :: 0 <= k < |Texts(input)| ==>
      AnsweredBy(Texts(input)[k], Outcome(input, api).blocks[k], api)
  {
    OutcomeAllAccepted(input, api);
    forall k | 0 <= k < |Texts(input)|
      ensures AnsweredBy(Texts(input)[k], Outcome(input, api).blocks[k], api)
    {
      assert Accepted(Texts(input)[k]);
    }
  }

  /** The first text block that does not name a command with enough arguments
      decides `run`: "Invalid command" if it names no command, the check's
      `IndexError` otherwise. Output from earlier blocks is discarded. */
  lemma OutcomeFirstRejected(input: seq<ToolBlock>, api: Request -> string, k: nat)
    requires k < |Texts(input)| && !Accepted(Texts(input)[k])
    requires forall j :: 0 <= j < k ==> Accepted(Texts(input)[j])
    ensures Outcome(input, api) == Respond(Texts(input)[k], api)
    ensures Outcome(input, api) == InvalidCommand <==> !Matches(Texts(input)[k])
  {
    var respond := t => Respond(t, api);
    forall j | 0 <= j < k
      ensures respond(Texts(input)[j]).Output?
    {
      assert Accepted(Texts(input)[j]);
    }
    FoldFirstUnanswered(input, respond, k);
  }

  /** `run` returns a list of blocks exactly when every text block names a
      command with enough arguments, so a single text block without a keyword
      always prevents a list of blocks. */
  lemma OutcomeOutputIff(input: seq<ToolBlock>, api: Request -> string)
    ensures Outcome(input, api).Output? <==>
      forall k :: 0 <= k < |Texts(input)| ==> Accepted(Texts(input)[k])
  {
    var respond := t => Respond(t, api);
    FoldOutputIff(input, respond);
    assert forall k :: 0 <= k < |Texts(input)| ==>
      (respond(Texts(input)[k]).Output? <==> Accepted(Texts(input)[k]));
  }
}
