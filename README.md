# GemachDAO assistant: command router and inbound parser in Dafny

The repository configures a DeFi chat assistant on a hosted agent platform.
Two pieces of it carry logic of their own, and this project models both:

- **The GoPlus security tool** (`src/example_tools/go_plus_security_tool.py`).
  It splits a text block into words and finds the first of seven command
  keywords (`check_token_security`, `check_malicious_address`,
  `check_nft_security`, `check_approval_security`, `check_phishing_site`,
  `check_abi_decode`, `check_dapp_security`). The words after that keyword
  become positional arguments, and the keyword picks the check method that
  reads them. `run` handles a batch of blocks. It skips non-text blocks and
  answers each text block with one output block: the rendered result of the
  request its check builds from the arguments. The first text block without a
  keyword turns the whole batch into the string "Invalid command", unless an
  earlier text block raised `IndexError`.
- **The inbound Telegram parser** (`MyAssistant._parse_inbound` in
  `src/api.py`). It checks the payload's `chat`, `chat.id` and `message_id` in
  that order. A voice note or video note gives a block with the file's URL;
  otherwise `text` gives a text block. A message with neither gives no block.
  Every block carries the chat id and message id as strings.

Files:

- `wrappers.dfy` (`Wrappers`): `Option` and `Result`.
- `words.dfy` (`Words`): Python's `str.split()` with no separator. It uses the
  full set of characters `str.isspace()` accepts. `Split` inverts `Join` on
  whitespace-free words.
- `security_tool.dfy` (`SecurityTool`): the keyword table and
  `get_command_for`, modelled as a specification function and a loop method.
  Also `matches`, the seven check methods and `run`, again as a specification
  function and a loop method.
- `decimal.dfy` (`Decimal`): `str()` on an integer, with a parser that reads
  it back.
- `inbound.dfy` (`Inbound`): JSON values, `dict.get`, Python truthiness and
  `_parse_inbound`.

Modelling decisions:

- A check method's GoPlus client call and the `str(data)` that renders its
  result are one parameter, `api: Request -> string`. `Request` records which
  client method is called and with which arguments.
- Reading a missing position raises `IndexError` in Python. Here it is the
  value `IndexError(i)`, where `i` is the first out-of-range position Python
  evaluates. Python evaluates keyword arguments from left to right, so
  `check_token_security` reads position 1 (`chain_id`) before position 0.
- `run` ends in one of three ways: a list of blocks, "Invalid command", or the
  `IndexError` that a check raised. `Outcome` states this as a fold, `Fold`,
  over a handling of one block, `Respond`. The fold's lemmas are proved for
  any per-block handling and then specialised to `Respond`.
- The `else: return "Invalid command"` branch of `run` is in the model. An
  `assert false` there proves that it cannot be reached: `matches` already
  guarantees that the command is in the table.
- The payload is a `map<string, Value>`. `Get` returns Python's None both
  for a missing key and for a JSON null, as `dict.get` does.
- Python raises `AttributeError` when `chat`, or the chosen attachment, is not
  a mapping. Here that is the error `AttributeError(value)`.
- `isinstance(x, int)` also holds for `True` and `False`, whose `str()` is
  "True" and "False". The model keeps this.
- The block's `text` is the payload's `text` value as given.

Behaviour of the code worth noting:

- A chat that is not a mapping raises `AttributeError`, not `SteamshipError`:
  the code calls `.get` on whatever `chat` holds.
- The block stores `str(chat_id)` and `str(message_id)`, not the integers.
- A text block without a keyword gives "Invalid command" only if no earlier
  text block raised `IndexError`. The first text block that is not accepted
  decides the outcome (`OutcomeFirstRejected`).

## Model

| member | source | states |
|---|---|---|
| `Words.Split` | src/example_tools/go_plus_security_tool.py:58 | `text.split()`: every word is non-empty and contains no whitespace |
| `Words.SplitAllSpace` | src/example_tools/go_plus_security_tool.py:58 | text made only of whitespace characters has no words |
| `Words.SplitAtSpace` | src/example_tools/go_plus_security_tool.py:58 | any whitespace character separates words: the words of `a + c + b` are the words of `a` followed by the words of `b`; with `SplitWord` this fixes `split()` on every text |
| `Words.SplitJoin` | src/example_tools/go_plus_security_tool.py:58 | splitting words joined by spaces gives back exactly those words, in order |
| `SecurityTool.KeywordsAreWords` | src/example_tools/go_plus_security_tool.py:14-22 | every key of `COMMANDS` is a single whitespace-free word |
| `SecurityTool.FindCommand` | src/example_tools/go_plus_security_tool.py:59-64 | no command iff no word is a keyword, and then the arguments are empty; a command found is always a key of `COMMANDS` |
| `SecurityTool.FindCommandFirst` | src/example_tools/go_plus_security_tool.py:59-63 | if the word at index i is the first keyword, the command is that word and the arguments are exactly the words after it, in order |
| `SecurityTool.CommandForNone` | src/example_tools/go_plus_security_tool.py:64 | text with no keyword yields `(None, [])` |
| `SecurityTool.CommandForJoin` | src/example_tools/go_plus_security_tool.py:58-63 | for every keyword K and words a1..an, the text "K a1 ... an" yields command K and arguments [a1..an], even when some ai is itself a keyword |
| `SecurityTool.GetCommandFor` | src/example_tools/go_plus_security_tool.py:54-64 | the early-return search loop returns exactly the first-keyword invocation that `FindCommand` specifies |
| `SecurityTool.Matches` | src/example_tools/go_plus_security_tool.py:66-71 | true iff some word of the text is a key of `COMMANDS`; when true, the command `get_command_for` returns is a key of `COMMANDS` |
| `SecurityTool.Handle` | src/example_tools/go_plus_security_tool.py:75-103 | a check succeeds iff it gets at least 2 arguments (token, NFT, approval), 3 (ABI decode) or 1 (malicious address, dApp, phishing); on success the request comes from that check and carries exactly the first that many arguments in positional order; otherwise the `IndexError` names the first missing position Python evaluates: 1 for the token check (its `chain_id` is read first), the number of arguments for the others |
| `SecurityTool.RequestDetermined` | src/example_tools/go_plus_security_tool.py:75-102 | two requests from the same check with the same positional arguments are equal, so a text asks for at most one request |
| `SecurityTool.Respond` | src/example_tools/go_plus_security_tool.py:41-51 | one text block gives "Invalid command" iff it has no keyword; it gives output iff it is accepted (keyword present and enough arguments), and the output is the single block `api(req)` for the request the keyword's check builds from the first arguments after the keyword; a raised error is exactly the `IndexError` that check raises on the arguments, at a position past them |
| `SecurityTool.Outcome` | src/example_tools/go_plus_security_tool.py:34-52 | a successful run has exactly one block per text block of the input, all of them text |
| `SecurityTool.Run` | src/example_tools/go_plus_security_tool.py:34-52 | the loop, with its early returns and the unreachable `else`, computes exactly `Outcome` |
| `SecurityTool.OutcomeSkipsNonText` | src/example_tools/go_plus_security_tool.py:40-41 | inserting a non-text block anywhere in the input leaves the result unchanged |
| `SecurityTool.OutcomeAllAccepted` | src/example_tools/go_plus_security_tool.py:39-52 | when every text block is accepted, the run outputs one block per text block in input order, the k-th being the answer to the k-th text block; no text blocks (e.g. an empty input) gives an empty list |
| `SecurityTool.OutcomeAnswers` | src/example_tools/go_plus_security_tool.py:39-52 | when every text block is accepted, the k-th output block is the rendered result of the request the k-th text block asks for |
| `SecurityTool.OutcomeFirstRejected` | src/example_tools/go_plus_security_tool.py:41-51 | the first text block that is not accepted decides the whole run: "Invalid command" iff it has no keyword, else its `IndexError`; earlier output is discarded |
| `SecurityTool.OutcomeOutputIff` | src/example_tools/go_plus_security_tool.py:39-52 | the run returns a list of blocks iff every text block is accepted; so one text block without a keyword always prevents a block list |
| `Decimal.FromInt` | src/api.py:134-135 | `str(i)` is non-empty and starts with '-' iff i is negative |
| `Decimal.RoundTrip` | src/api.py:134-135 | parsing `str(i)` gives back i |
| `Decimal.Injective` | src/api.py:143-144 | distinct integer ids give distinct id strings |
| `Inbound.ParseInbound` | src/api.py:102-147 | error iff chat, chat.id or message_id is missing or not an int, or the chosen attachment is not a mapping; no block iff valid ids, no media and no text; a block's ids are `str` of the validated ids; a media block has the file URL and the payload's text (possibly absent); a text block has that text and no URL |
| `Inbound.GuardOrder` | src/api.py:105-125 | the checks run in order (chat, chat is a mapping, chat.id present, chat.id int, message_id present, message_id int), and the first failing check decides the error whatever the later fields hold |
| `Inbound.MediaPrecedence` | src/api.py:127-136 | a truthy voice mapping gives a block whose URL is resolved from the voice's `file_id`, whatever `video_note` and `text` hold |
| `Inbound.IdsRoundTrip` | src/api.py:134-135 | an emitted block's chat id and message id parse back to the payload's integer `chat.id` and `message_id` |
| `Inbound.TextMessageExample` | src/api.py:140-145 | `{"chat": {"id": 42}, "message_id": 7, "text": "hello"}` gives a text block "hello" addressed to "42" and "7" |
| `Inbound.ContentlessMessageExample` | src/api.py:138-147 | `{"chat": {"id": 42}, "message_id": 7}` gives no block and no error |

## Left out

- The GoPlus client calls (`Token`, `Address`, `Nft`, `Approve`, `Dapp`, `Decode`, `PushingSite`) and the `str(data)` that renders their results are network calls into a library. They are the parameter `api`, and errors they raise are not modelled.
- `_get_file_url` is an HTTP call to Telegram. It is the parameter `fileUrl`, and errors it raises are not modelled.
- `print(context.chat_history)` in `run` only logs, so it and the `context` argument are left out.
- `Block.is_text()` belongs to the host platform's block type. A tool input block is either `Text(text)` or `NonText`.
- How the platform's `Block` constructor treats a non-string `text` is not modelled. The block keeps the payload value unchanged.
- The tool's name and descriptions, and both `__main__` REPL blocks, have no logic. The `AgentREPL` block in `src/api.py` sits after the `return` statements of `_parse_inbound` and can never run.
- Everything else in `src/api.py` is framework wiring and configuration: the system prompt, the model name, `TelegramBotConfig`/`config_cls`, `__init__` and the cache flags.
