/**
 * The `POST` handler of the upload API route: it reads the multipart form, writes the
 * file to the upload directory, runs the backend upload script, and answers with the
 * content identifier that the script prints on an `IPFS_HASH:` line.
 *
 * The file system and the child process are outside the model: their outcomes are the
 * fields of `Env`, and the handler's requests to them are returned as a list of `Effect`s.
 */
module UploadRoute {

  import opened Wrappers
  import Strings

  /** A multipart form entry: plain text, or an uploaded file with its name and bytes. */
  datatype FormValue = Text(text: string) | Blob(name: string, bytes: seq<bv8>)

  /** The parsed form: the `file` entry, and the text entries by field name. */
  datatype Form = Form(file: Option<FormValue>, fields: map<string, string>)

  /**
   * What the environment does when asked: the clock, the directories the route resolves,
   * whether writing the file fails, what the script prints or why it fails, and the message
   * of the TypeError raised when the `file` entry is text (which has no `arrayBuffer`).
   * A failing `mkdir` is caught and ignored by the route, so it has no field here.
   */
  datatype Env = Env(
    now: nat,
    uploadDir: string,
    backendDir: string,
    writeError: Option<string>,
    exec: Result<string, string>,
    notAFileError: string)

  datatype Effect =
    | MakeDirectory(path: string)
    | WriteFile(path: string, bytes: seq<bv8>)
    | Execute(command: string)

  datatype Body =
    | ErrorBody(error: string)
    | Uploaded(ipfsHash: string, url: string, title: string, description: string,
               category: string, price: string)

  datatype Reply = Reply(status: nat, body: Body)

  /** The reply together with the side effects requested, in order. */
  datatype Handled = Handled(reply: Reply, effects: seq<Effect>)

  const NoFileMessage: string := "No file provided"
  const NoHashMessage: string := "Could not get IPFS hash from upload script"
  const InternalErrorPrefix: string := "Internal server error during upload: "
  const GatewayPrefix: string := "https://gateway.pinata.cloud/ipfs/"
  const Sentinel: string := "IPFS_HASH:"

  // ---------------------------------------------------------------------------
  // Form fields

  /** `formData.get(name) || ''`: a missing or empty text field becomes the empty string. */
  function FieldOrEmpty(form: Form, name: string): (v: string)
    ensures name !in form.fields ==> v == ""
    ensures name in form.fields ==> v == form.fields[name]
  {
    if name in form.fields && form.fields[name] != "" then form.fields[name] else ""
  }

  /** `!file`: the entry is missing, or is the empty text. */
  predicate FileMissing(file: Option<FormValue>)
  {
    file.None? || file.value == Text("")
  }

  // ---------------------------------------------------------------------------
  // Escaping for the shell command

  function CountQuotes(s: string): nat
  {
    if |s| == 0 then 0 else (if s[0] == '"' then 1 else 0) + CountQuotes(s[1..])
  }

  /** `s.replace(/"/g, '\\"')`: a backslash is put before every double quote. */
  function Escape(s: string): (r: string)
    ensures |r| == |s| + CountQuotes(s)
  {
    if |s| == 0 then ""
    else if s[0] == '"' then "\\\"" + Escape(s[1..])
    else [s[0]] + Escape(s[1..])
  }

  /** Reading an escaped string back: a backslash followed by a quote stands for the quote. */
  function Unescape(r: string): string
  {
    if |r| == 0 then ""
    else if |r| >= 2 && r[0] == '\\' && r[1] == '"' then "\"" + Unescape(r[2..])
    else [r[0]] + Unescape(r[1..])
  }

  /** Every quote of an escaped string has a backslash right before it. */
  lemma {:induction false} EscapedQuotesArePreceded(s: string)
    ensures forall k :: 0 <= k < |Escape(s)| && Escape(s)[k] == '"' ==> k > 0 && Escape(s)[k - 1] == '\\'
  {
    if |s| > 0 {
      EscapedQuotesArePreceded(s[1..]);
      var tail := Escape(s[1..]);
      var head := if s[0] == '"' then "\\\"" else [s[0]];
      assert Escape(s) == head + tail;
      forall k | 0 <= k < |Escape(s)| && Escape(s)[k] == '"'
        ensures k > 0 && Escape(s)[k - 1] == '\\'
      {
        if k >= |head| {
          assert Escape(s)[k] == tail[k - |head|];
          if k - |head| > 0 {
            assert Escape(s)[k - 1] == tail[k - |head| - 1];
          }
        }
      }
    }
  }

  /** Escaping loses nothing: `Unescape` recovers the original, characters and order. */
  lemma {:induction false} EscapeRoundTrip(s: string)
    ensures Unescape(Escape(s)) == s
  {
    if |s| > 0 {
      EscapeRoundTrip(s[1..]);
      var tail := Escape(s[1..]);
      if s[0] == '"' {
        assert Escape(s) == "\\\"" + tail;
        assert Escape(s)[2..] == tail;
      } else {
        assert Escape(s) == [s[0]] + tail;
        assert Escape(s)[1..] == tail;
        if s[0] == '\\' && |tail| > 0 {
          EscapedQuotesArePreceded(s[1..]);
          assert tail[0] != '"';
        }
      }
    }
  }

  /** A string without quotes is left as it is. */
  lemma {:induction false} EscapeWithoutQuotes(s: string)
    requires CountQuotes(s) == 0
    ensures Escape(s) == s
  {
    if |s| > 0 {
      EscapeWithoutQuotes(s[1..]);
    }
  }

  /**
   * The command line handed to the shell. The file path, title, description and category
   * are escaped; the price is inserted as it came.
   */
  function UploadCommand(backendDir: string, filepath: string, title: string,
                         description: string, category: string, price: string): string
  {
    "cd \"" + backendDir + "\" && python upload.py --file \"" + Escape(filepath)
    + "\" --title \"" + Escape(title) + "\" --description \"" + Escape(description)
    + "\" --category \"" + Escape(category) + "\" --price \"" + price + "\""
  }

  /** Only the price reaches the command unescaped: it is the last quoted argument, verbatim. */
  lemma PriceNotEscaped(backendDir: string, filepath: string, title: string,
                        description: string, category: string, price: string)
    ensures var cmd := UploadCommand(backendDir, filepath, title, description, category, price);
            var tail := " --price \"" + price + "\"";
            Strings.EndsWith(cmd, tail)
            && cmd[..|cmd| - |tail|]
               == UploadCommand(backendDir, filepath, title, description, category, "")[..|cmd| - |tail|]
  {
  }

  // ---------------------------------------------------------------------------
  // Extracting the content identifier: `stdout.match(/IPFS_HASH:([a-zA-Z0-9]+)/)`

  predicate IsAlnum(c: char)
  {
    ('a' <= c <= 'z') || ('A' <= c <= 'Z') || ('0' <= c <= '9')
  }

  /** The longest prefix of `s` made of ASCII letters and digits (the greedy `+`). */
  function AlnumRun(s: string): (r: string)
    ensures r <= s
    ensures forall k :: 0 <= k < |r| ==> IsAlnum(r[k])
    ensures |r| < |s| ==> !IsAlnum(s[|r|])
  {
    if |s| > 0 && IsAlnum(s[0]) then [s[0]] + AlnumRun(s[1..]) else ""
  }

  /** The pattern matches at `i`: the sentinel, then at least one letter or digit. */
  predicate MatchesAt(s: string, i: nat)
  {
    i + |Sentinel| < |s| && s[i..i + |Sentinel|] == Sentinel && IsAlnum(s[i + |Sentinel|])
  }

  /** The leftmost position at or after `from` where the pattern matches. */
  function FirstMatch(s: string, from: nat): (r: Option<nat>)
    ensures r.Some? ==> from <= r.value && MatchesAt(s, r.value)
                        && forall j :: from <= j < r.value ==> !MatchesAt(s, j)
    ensures r.None? ==> forall j :: from <= j ==> !MatchesAt(s, j)
    decreases |s| - from
  {
    if from + |Sentinel| >= |s| then None
    else if MatchesAt(s, from) then Some(from)
    else FirstMatch(s, from + 1)
  }

  /** `ipfsHashMatch ? ipfsHashMatch[1] : null`. */
  function ExtractHash(stdout: string): Option<string>
  {
    match FirstMatch(stdout, 0)
    case None => None
    case Some(i) => Some(AlnumRun(stdout[i + |Sentinel|..]))
  }

  /**
   * The extracted hash is the maximal non-empty run of letters and digits after the leftmost
   * sentinel that has one; there is none exactly when no sentinel is followed by one.
   */
  lemma ExtractHashSpec(stdout: string)
    ensures ExtractHash(stdout).None? <==> forall i: nat :: !MatchesAt(stdout, i)
    ensures ExtractHash(stdout).Some? ==>
      exists i: nat :: MatchesAt(stdout, i) && (forall j: nat :: j < i ==> !MatchesAt(stdout, j))
        && var h := ExtractHash(stdout).value;
           |h| > 0 && stdout[i + |Sentinel|..] [..|h|] == h
           && (forall k :: 0 <= k < |h| ==> IsAlnum(h[k]))
           && (i + |Sentinel| + |h| == |stdout| || !IsAlnum(stdout[i + |Sentinel| + |h|]))
  {
    match FirstMatch(stdout, 0)
    case None =>
    case Some(i) =>
      var rest := stdout[i + |Sentinel|..];
      var h := AlnumRun(rest);
      assert rest[0] == stdout[i + |Sentinel|];
      assert |h| > 0;
      if i + |Sentinel| + |h| < |stdout| {
        assert rest[|h|] == stdout[i + |Sentinel| + |h|];
      }
      assert MatchesAt(stdout, i) && (forall j: nat :: j < i ==> !MatchesAt(stdout, j));
  }

  /** A line `IPFS_HASH:<hash>` with a plain alphanumeric hash yields exactly that hash. */
  lemma SentinelLineYieldsHash(hash: string, after: string)
    requires |hash| > 0 && forall k :: 0 <= k < |hash| ==> IsAlnum(hash[k])
    requires |after| == 0 || !IsAlnum(after[0])
    ensures ExtractHash(Sentinel + hash + after) == Some(hash)
  {
    var s := Sentinel + hash + after;
    assert s[0..|Sentinel|] == Sentinel;
    assert s[|Sentinel|] == hash[0];
    assert MatchesAt(s, 0);
    var rest := s[|Sentinel|..];
    assert rest == hash + after;
    AlnumRunOf(hash, after);
  }

  lemma {:induction false} AlnumRunOf(hash: string, after: string)
    requires forall k :: 0 <= k < |hash| ==> IsAlnum(hash[k])
    requires |after| == 0 || !IsAlnum(after[0])
    ensures AlnumRun(hash + after) == hash
  {
    if |hash| > 0 {
      assert (hash + after)[1..] == hash[1..] + after;
      AlnumRunOf(hash[1..], after);
    } else {
      assert hash + after == after;
    }
  }

  // ---------------------------------------------------------------------------
  // The handler

  function InternalError(message: string): Reply
  {
    Reply(500, ErrorBody(InternalErrorPrefix + message))
  }

  /** `${Date.now()}-${file.name}` inside the upload directory. */
  function UploadPath(env: Env, fileName: string): string
  {
    env.uploadDir + "/" + Strings.NatToDecimal(env.now) + "-" + fileName
  }

  /**
   * `POST(request)`. `request` is the outcome of `request.formData()`: the parsed form, or
   * the message of the error it threw.
   */
  function Post(request: Result<Form, string>, env: Env): (h: Handled)
    ensures h.reply.status in {200, 400, 500}
    ensures h.reply.status == 200 <==> h.reply.body.Uploaded?
  {
    match request
    case Failure(message) => Handled(InternalError(message), [])
    case Success(form) =>
      if FileMissing(form.file) then Handled(Reply(400, ErrorBody(NoFileMessage)), [])
      else match form.file.value
        case Text(_) => Handled(InternalError(env.notAFileError), [])
        case Blob(name, bytes) =>
          var title := FieldOrEmpty(form, "title");
          var description := FieldOrEmpty(form, "description");
          var category := FieldOrEmpty(form, "category");
          var price := FieldOrEmpty(form, "price");
          var filepath := UploadPath(env, name);
          var stored := [MakeDirectory(env.uploadDir), WriteFile(filepath, bytes)];
          if env.writeError.Some? then Handled(InternalError(env.writeError.value), stored)
          else
            var command := UploadCommand(env.backendDir, filepath, title, description, category, price);
            var effects := stored + [Execute(command)];
            match env.exec
            case Failure(message) => Handled(InternalError(message), effects)
            case Success(stdout) =>
              match ExtractHash(stdout)
              case None => Handled(Reply(500, ErrorBody(NoHashMessage)), effects)
              case Some(hash) =>
                Handled(Reply(200, Uploaded(hash, GatewayPrefix + hash, title, description, category, price)),
                        effects)
  }

  // ---------------------------------------------------------------------------
  // Properties of the handler

  /** No file: a 400 with 'No file provided', before anything is written or executed. */
  lemma NoFileRejectedFirst(form: Form, env: Env)
    requires FileMissing(form.file)
    ensures Post(Success(form), env) == Handled(Reply(400, ErrorBody(NoFileMessage)), [])
  {
  }

  /** The script is run only after the file was written, and at most once. */
  lemma ScriptRunsOnlyAfterWrite(request: Result<Form, string>, env: Env, k: nat)
    requires k < |Post(request, env).effects| && Post(request, env).effects[k].Execute?
    ensures k == 2 && env.writeError.None?
    ensures Post(request, env).effects[1].WriteFile?
  {
  }

  /** A successful reply carries the gateway URL of the extracted hash and echoes the fields. */
  lemma SuccessReply(request: Result<Form, string>, env: Env)
    requires Post(request, env).reply.status == 200
    ensures request.Success? && env.exec.Success?
    ensures var body := Post(request, env).reply.body;
            var form := request.value;
            && ExtractHash(env.exec.value) == Some(body.ipfsHash)
            && body.url == GatewayPrefix + body.ipfsHash
            && |body.ipfsHash| > 0
            && body.title == FieldOrEmpty(form, "title")
            && body.description == FieldOrEmpty(form, "description")
            && body.category == FieldOrEmpty(form, "category")
            && body.price == FieldOrEmpty(form, "price")
  {
    var stdout := env.exec.value;
    ExtractHashSpec(stdout);
  }

  /** Script output without a usable sentinel line gives the 'Could not get IPFS hash' error. */
  lemma MissingHashReply(form: Form, env: Env)
    requires !FileMissing(form.file) && form.file.value.Blob?
    requires env.writeError.None? && env.exec.Success?
    requires forall i: nat :: !MatchesAt(env.exec.value, i)
    ensures Post(Success(form), env).reply == Reply(500, ErrorBody(NoHashMessage))
  {
    ExtractHashSpec(env.exec.value);
  }

  /** Every thrown error is answered by a 500 whose message starts with the fixed prefix. */
  lemma ThrownErrorsArePrefixed(request: Result<Form, string>, env: Env)
    requires request.Failure?
          || (!FileMissing(request.value.file)
              && (request.value.file.value.Text?
                  || env.writeError.Some?
                  || env.exec.Failure?))
    ensures var reply := Post(request, env).reply;
            reply.status == 500 && reply.body.ErrorBody? && InternalErrorPrefix <= reply.body.error
  {
  }
}
