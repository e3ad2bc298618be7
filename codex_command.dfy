/**
 * The command line of the Codex adapter (`CodexAdapter::build_command`, adapters/codex.rs):
 * the arguments of `codex exec`, built segment by segment from the run payload, with the
 * environment and the metadata the runner needs. Each segment is specified by a function; the
 * method `BuildCommand` pushes the arguments step by step and is proved to produce the command
 * the specification composes.
 */
module CodexCommand {
  import opened Wrappers
  import opened Errors
  import opened Text
  import Json
  import opened Models
  import opened Adapters
  import KeyOrder
  import CliAllowlist
  import Policy

  /**
   * What `build_command` takes from its surroundings: whether the working directory is inside
   * a git work tree (`git rev-parse`), the temporary directory and `Path::join`/`Path::parent`,
   * the two fresh UUIDs of the structured-output files, the base64 decoder's error (if any) on
   * a payload, and the JSON library.
   */
  datatype Host = Host(
    isGitRepo: bool,
    tempDir: string,
    join: (string, string) -> string,
    parent: string -> Option<string>,
    schemaId: string,
    outputId: string,
    base64Error: string -> Option<string>,
    codec: JsonCodec)

  const BlockedMessage: string := "Codex CLI is blocked by compatibility profile"

  /** An option: an argument beginning with `--`. */
  predicate IsOption(arg: string)
  {
    |arg| >= 2 && arg[0] == '-' && arg[1] == '-'
  }

  /** An argument list that is empty or opens with an option. */
  predicate OpensWithOption(args: seq<string>)
  {
    args == [] || IsOption(args[0])
  }

  lemma OpensWithOptionAppend(a: seq<string>, b: seq<string>)
    requires OpensWithOption(a) && OpensWithOption(b)
    ensures OpensWithOption(a + b)
  {
    if a == [] {
      assert a + b == b;
    }
  }

  lemma Associative(a: seq<string>, b: seq<string>, c: seq<string>)
    ensures a + b + c == a + (b + c)
  {
  }

  /** `flag` before each of `values`: `--add-dir d` for each directory, `--image p` for each image. */
  function Pairs(flag: string, values: seq<string>): (r: seq<string>)
    ensures |r| == 2 * |values|
    ensures forall i :: 0 <= i < |values| ==> r[2 * i] == flag && r[2 * i + 1] == values[i]
    ensures IsOption(flag) ==> OpensWithOption(r)
    decreases |values|
  {
    if values == [] then []
    else
      var before := Pairs(flag, values[..|values| - 1]);
      assert forall i :: 0 <= i < |values| - 1 ==> values[..|values| - 1][i] == values[i];
      before + [flag, values[|values| - 1]]
  }

  // ---- the mode: `exec`, and `resume` ----

  /**
   * A non-interactive run is `codex exec`, resuming the last session when asked to continue,
   * or the session with the resume id when there is one. An interactive run adds nothing.
   */
  function ModeArgs(payload: StartRunPayload): (r: seq<string>)
    ensures r != [] <==> payload.mode.NonInteractive?
    ensures r != [] ==> r[0] == "exec"
  {
    if payload.mode.Interactive? then []
    else if ContinueSession(payload) then ["exec", "resume", "--last"]
    else
      match ResumeSessionId(payload)
      case Some(id) => ["exec", "resume", id]
      case None => ["exec"]
  }

  function ModelArgs(payload: StartRunPayload): (r: seq<string>)
    ensures OpensWithOption(r)
  {
    if payload.model.Some? then ["--model", payload.model.value] else []
  }

  function GitArgs(isGitRepo: bool): (r: seq<string>)
    ensures OpensWithOption(r)
  {
    if isGitRepo then [] else ["--skip-git-repo-check"]
  }

  /** The output formats for which a non-interactive run asks for JSON events. */
  predicate JsonFormat(format: Option<string>)
  {
    format.None? || format.value == "json" || format.value == "stream-json" || format.value == "text"
  }

  function JsonArgs(payload: StartRunPayload): (r: seq<string>)
    ensures OpensWithOption(r)
  {
    if payload.mode.NonInteractive? && JsonFormat(payload.outputFormat) then ["--json"] else []
  }

  // ---- permissions ----

  /** `--ask-for-approval`: auto-approval never asks; otherwise the policy, on request by default. */
  function Approval(permission: UnifiedPermission): (r: string)
    ensures permission.autoApprove ==> r == "never"
    ensures r in {"untrusted", "on-failure", "never", "on-request"}
  {
    if permission.autoApprove then "never"
    else
      match permission.approvalPolicy
      case Some(Untrusted) => "untrusted"
      case Some(OnFailure) => "on-failure"
      case Some(Never) => "never"
      case _ => "on-request"
  }

  function SandboxName(mode: SandboxMode): (r: string)
    ensures r in {"read-only", "workspace-write", "danger-full-access"}
  {
    match mode
    case ReadOnly => "read-only"
    case WorkspaceWrite => "workspace-write"
    case FullAccess => "danger-full-access"
  }

  /** Web search is on when network access is granted and the web-search tool is requested. */
  predicate SearchEnabled(harness: HarnessRequestOptions, permission: UnifiedPermission)
  {
    permission.networkAccess && harness.tools.Some? && WebSearch in harness.tools.value
  }

  function PermissionArgs(harness: HarnessRequestOptions): (r: seq<string>)
    ensures OpensWithOption(r)
  {
    match harness.permissions
    case None => []
    case Some(permission) =>
      ["--ask-for-approval", Approval(permission), "--sandbox", SandboxName(permission.sandboxMode)]
      + (if SearchEnabled(harness, permission) then ["--search"] else [])
  }

  /** `--search` is passed exactly when network access and the web-search tool are both given. */
  lemma SearchIffNetworkAndWebSearch(harness: HarnessRequestOptions)
    requires harness.permissions.Some?
    ensures "--search" in PermissionArgs(harness) <==> SearchEnabled(harness, harness.permissions.value)
    ensures "--ask-for-approval" in PermissionArgs(harness) && "--sandbox" in PermissionArgs(harness)
  {
    var permission := harness.permissions.value;
    var fixed := ["--ask-for-approval", Approval(permission), "--sandbox", SandboxName(permission.sandboxMode)];
    assert "--search" !in fixed;
    assert PermissionArgs(harness)[0] == "--ask-for-approval" && PermissionArgs(harness)[2] == "--sandbox";
  }

  function DirArgs(harness: HarnessRequestOptions): (r: seq<string>)
    ensures OpensWithOption(r)
  {
    if harness.additionalDirectories.Some? then Pairs("--add-dir", harness.additionalDirectories.value) else []
  }

  // ---- MCP servers, passed as `--config` overrides ----

  function SanitizeChar(c: char): (r: char)
    ensures CliAllowlist.IsSafeCommandChar(r)
    ensures CliAllowlist.IsSafeCommandChar(c) ==> r == c
  {
    if CliAllowlist.IsSafeCommandChar(c) then c else '_'
  }

  /**
   * `sanitize_mcp_key`: every character outside `[A-Za-z0-9_-]` becomes '_', and an empty
   * name becomes "mcp_server", so the key is always a non-empty run of safe characters.
   */
  function SanitizeMcpKey(name: string): (r: string)
    ensures CliAllowlist.IsSafeCommandName(r)
    ensures name != [] ==> |r| == |name|
  {
    if name == [] then "mcp_server"
    else seq(|name|, i requires 0 <= i < |name| => SanitizeChar(name[i]))
  }

  /** A name that is already a safe key is kept as it is. */
  lemma SanitizeKeepsSafeNames(name: string)
    requires CliAllowlist.IsSafeCommandName(name)
    ensures SanitizeMcpKey(name) == name
  {
  }

  /** Sanitizing a key again changes nothing. */
  lemma SanitizeMcpKeyIdempotent(name: string)
    ensures SanitizeMcpKey(SanitizeMcpKey(name)) == SanitizeMcpKey(name)
  {
    SanitizeKeepsSafeNames(SanitizeMcpKey(name));
  }

  /** Two names that differ only in unsafe characters share a key. */
  lemma SanitizeMergesUnsafeCharacters()
    ensures SanitizeMcpKey("my server") == SanitizeMcpKey("my.server") == "my_server"
  {
    assert SanitizeMcpKey("my server") == "my_server";
    assert SanitizeMcpKey("my.server") == "my_server";
  }

  /** `--config mcp_servers.<key>.<setting>=<value>`. */
  function Setting(key: string, setting: string, value: string): seq<string>
  {
    ["--config", "mcp_servers." + key + "." + setting + "=" + value]
  }

  /** One `env.<name>` setting per variable, for the names in `names`. */
  function EnvSettings(key: string, env: map<string, string>, names: seq<string>, codec: JsonCodec): (r: seq<string>)
    requires forall n :: n in names ==> n in env
    ensures r != [] ==> r[0] == "--config"
    decreases |names|
  {
    if names == [] then []
    else
      var name := names[|names| - 1];
      EnvSettings(key, env, names[..|names| - 1], codec) + Setting(key, "env." + name, codec.render(Json.Str(env[name])))
  }

  function OptionalSetting(key: string, setting: string, value: Option<Json.Value>, codec: JsonCodec): seq<string>
  {
    if value.Some? then Setting(key, setting, codec.render(value.value)) else []
  }

  /** The settings before the environment: command, url, transport and arguments. */
  function ServerHead(server: McpServer, key: string, codec: JsonCodec): seq<string>
  {
    OptionalSetting(key, "command", if server.command.Some? then Some(Json.Str(server.command.value)) else None, codec)
    + OptionalSetting(key, "url", if server.url.Some? then Some(Json.Str(server.url.value)) else None, codec)
    + OptionalSetting(key, "transport", if server.transport.Some? then Some(Json.Str(server.transport.value)) else None, codec)
    + OptionalSetting(key, "args", if server.args.Some? then Some(Json.StrArray(server.args.value)) else None, codec)
  }

  /** The settings after the environment: the tool lists, and finally `enabled=true`. */
  function ServerTail(server: McpServer, key: string, codec: JsonCodec): (r: seq<string>)
    ensures |r| >= 2 && r[0] == "--config" && r[|r| - 2..] == Setting(key, "enabled", "true")
  {
    OptionalSetting(key, "enabled_tools", if server.enabledTools.Some? then Some(Json.StrArray(server.enabledTools.value)) else None, codec)
    + OptionalSetting(key, "disabled_tools", if server.disabledTools.Some? then Some(Json.StrArray(server.disabledTools.value)) else None, codec)
    + Setting(key, "enabled", "true")
  }

  /** The variables of a server, in the order of its `BTreeMap`. */
  function EnvNames(server: McpServer): (r: seq<string>)
    ensures forall n :: n in r ==> server.env.Some? && n in server.env.value
  {
    if server.env.Some? then KeyOrder.SortedKeys(server.env.value.Keys) else []
  }

  /** The overrides for one server: none for a disabled server. */
  function ServerArgs(server: McpServer, codec: JsonCodec): (r: seq<string>)
  {
    if server.enabled == Some(false) then []
    else ServerBody(server, SanitizeMcpKey(server.name), codec)
  }

  /** The settings of an enabled server under `key`: head, environment, tail. */
  function ServerBody(server: McpServer, key: string, codec: JsonCodec): (r: seq<string>)
  {
    ServerHead(server, key, codec)
    + (if server.env.Some? then EnvSettings(key, server.env.value, EnvNames(server), codec) else [])
    + ServerTail(server, key, codec)
  }

  /** The head of a server's settings is empty or opens with `--config`. */
  lemma ServerHeadOpens(server: McpServer, key: string, codec: JsonCodec)
    ensures var head := ServerHead(server, key, codec);
            head != [] ==> head[0] == "--config"
  {
  }

  /** Three segments, each empty or opening with `x`, the last holding at least two elements. */
  lemma JoinedSegments(head: seq<string>, env: seq<string>, tail: seq<string>, x: string)
    requires head != [] ==> head[0] == x
    requires env != [] ==> env[0] == x
    requires |tail| >= 2 && tail[0] == x
    ensures var all := head + env + tail;
            all[0] == x && all[|all| - 2..] == tail[|tail| - 2..]
  {
  }

  /**
   * A disabled server is left out entirely; every other server is configured and closed by
   * `enabled=true` under its sanitized key, and all its arguments come as `--config` pairs.
   */
  lemma ServerArgsShape(server: McpServer, codec: JsonCodec)
    ensures server.enabled == Some(false) <==> ServerArgs(server, codec) == []
    ensures var r := ServerArgs(server, codec);
            r != [] ==> r[0] == "--config" && r[|r| - 2..] == Setting(SanitizeMcpKey(server.name), "enabled", "true")
  {
    if server.enabled != Some(false) {
      var key := SanitizeMcpKey(server.name);
      var env := if server.env.Some? then EnvSettings(key, server.env.value, EnvNames(server), codec) else [];
      ServerHeadOpens(server, key, codec);
      JoinedSegments(ServerHead(server, key, codec), env, ServerTail(server, key, codec), "--config");
    }
  }

  function McpArgs(servers: seq<McpServer>, codec: JsonCodec): (r: seq<string>)
    ensures OpensWithOption(r)
    decreases |servers|
  {
    if servers == [] then []
    else
      var before := McpArgs(servers[..|servers| - 1], codec);
      var last := ServerArgs(servers[|servers| - 1], codec);
      ServerArgsShape(servers[|servers| - 1], codec);
      OpensWithOptionAppend(before, last);
      before + last
  }

  function HarnessMcpArgs(harness: HarnessRequestOptions, codec: JsonCodec): (r: seq<string>)
    ensures OpensWithOption(r)
  {
    if harness.mcp.Some? then McpArgs(harness.mcp.value.servers, codec) else []
  }

  // ---- structured output ----

  /** The schema file and the file for the last message, in the temporary directory. */
  function SchemaPath(host: Host): string
  {
    host.join(host.tempDir, "codex-schema-" + host.schemaId + ".json")
  }

  function OutputPath(host: Host): string
  {
    host.join(host.tempDir, "codex-output-" + host.outputId + ".json")
  }

  /**
   * Structured output writes the schema to a file, names it and the output file on the command
   * line, and tells the runner where to read the result, with which schema and strictness, and
   * that both files are to be removed.
   */
  function StructuredPart(harness: HarnessRequestOptions, host: Host): (r: (seq<string>, CommandMeta))
    ensures OpensWithOption(r.0)
    ensures harness.structuredOutput.None? ==> r == ([], NoMeta)
    ensures harness.structuredOutput.Some? ==>
              && r.0 == ["--output-schema", SchemaPath(host), "--output-last-message", OutputPath(host)]
              && r.1.structuredOutputPath == Some(OutputPath(host))
              && r.1.structuredOutputSchema == Some(harness.structuredOutput.value.schema)
              && r.1.structuredOutputStrict == (harness.structuredOutput.value.strict == Some(true))
              && r.1.cleanupPaths == [SchemaPath(host), OutputPath(host)]
  {
    match harness.structuredOutput
    case None => ([], NoMeta)
    case Some(request) =>
      (["--output-schema", SchemaPath(host), "--output-last-message", OutputPath(host)],
       CommandMeta(Some(OutputPath(host)), Some(request.schema), request.strict.UnwrapOr(false),
                   [SchemaPath(host), OutputPath(host)]))
  }

  // ---- images ----

  /** A PNG when the media type mentions png (in any case), a JPEG otherwise. */
  function ImageExtension(mimeType: string): (r: string)
    ensures r == "png" <==> Contains(Lower(mimeType), "png")
    ensures r == "png" || r == "jpg"
  {
    if Contains(Lower(mimeType), "png") then "png" else "jpg"
  }

  /** The image's file, `harness-image-<id>.<extension>` in the temporary directory. */
  function ImageFileName(image: HarnessImage): string
  {
    "harness-image-" + image.id + "." + ImageExtension(image.mimeType)
  }

  function ImagePath(image: HarnessImage, host: Host): string
  {
    host.join(host.tempDir, ImageFileName(image))
  }

  /** The decoder's complaint about an image's payload, if any. */
  function DecodeError(image: HarnessImage, host: Host): Option<string>
  {
    host.base64Error(Base64Payload(image.dataUrl))
  }

  /** The first complaint, in order, that `complaint` raises about an element of `xs`. */
  function FirstComplaint<X>(xs: seq<X>, complaint: X -> Option<string>): Option<string>
    decreases |xs|
  {
    if xs == [] then None
    else
      var n := |xs| - 1;
      var before := FirstComplaint(xs[..n], complaint);
      if before.Some? then before else complaint(xs[n])
  }

  /** `DecodeError` for a fixed host. */
  function Decoder(host: Host): HarnessImage -> Option<string>
  {
    image => DecodeError(image, host)
  }

  /** The first image, in order, whose payload does not decode: the decoder's complaint about it. */
  function FirstDecodeError(images: seq<HarnessImage>, host: Host): Option<string>
  {
    FirstComplaint(images, Decoder(host))
  }

  /** The image files, in the order of the images. */
  function PathsOf(images: seq<HarnessImage>, host: Host): (r: seq<string>)
    ensures |r| == |images|
    decreases |images|
  {
    if images == [] then []
    else PathsOf(images[..|images| - 1], host) + [ImagePath(images[|images| - 1], host)]
  }

  /** The image files, or the first decoding error. */
  function ImagePaths(images: seq<HarnessImage>, host: Host): AppResult<seq<string>>
  {
    match FirstDecodeError(images, host)
    case Some(e) => Err(Cli("Invalid image base64 payload: " + e))
    case None => Ok(PathsOf(images, host))
  }

  /** File `i` belongs to image `i`. */
  lemma {:induction false} PathsOfIndex(images: seq<HarnessImage>, host: Host, i: nat)
    requires i < |images|
    ensures PathsOf(images, host)[i] == ImagePath(images[i], host)
    decreases |images|
  {
    var n := |images| - 1;
    if i < n {
      PathsOfIndex(images[..n], host, i);
    }
  }

  /** The images fail exactly when one of them does not decode, and then with the first complaint. */
  lemma ImagePathsFailIffUndecodable(images: seq<HarnessImage>, host: Host)
    ensures FirstDecodeError(images, host).None? <==> forall i :: 0 <= i < |images| ==> DecodeError(images[i], host).None?
    ensures FirstDecodeError(images, host).Some? ==>
              exists i :: 0 <= i < |images| && DecodeError(images[i], host) == FirstDecodeError(images, host)
                && forall j :: 0 <= j < i ==> DecodeError(images[j], host).None?
  {
    NoComplaintIffNoneRaised(images, Decoder(host));
    FirstComplaintIsFirstRaised(images, Decoder(host));
  }

  /** No complaint exactly when no element raises one. */
  lemma {:induction false} NoComplaintIffNoneRaised<X>(xs: seq<X>, complaint: X -> Option<string>)
    ensures FirstComplaint(xs, complaint).None? <==> forall i :: 0 <= i < |xs| ==> complaint(xs[i]).None?
    decreases |xs|
  {
    if xs != [] {
      var n := |xs| - 1;
      var before := xs[..n];
      NoComplaintIffNoneRaised(before, complaint);
      assert forall i :: 0 <= i < n ==> before[i] == xs[i];
    }
  }

  /** The first complaint is raised by an element all of whose predecessors raise none. */
  lemma {:induction false} FirstComplaintIsFirstRaised<X>(xs: seq<X>, complaint: X -> Option<string>)
    ensures FirstComplaint(xs, complaint).Some? ==>
              exists i :: 0 <= i < |xs| && complaint(xs[i]) == FirstComplaint(xs, complaint)
                && forall j :: 0 <= j < i ==> complaint(xs[j]).None?
    decreases |xs|
  {
    if xs != [] {
      var n := |xs| - 1;
      var before := xs[..n];
      FirstComplaintIsFirstRaised(before, complaint);
      if FirstComplaint(before, complaint).Some? {
        var i :| 0 <= i < n && complaint(before[i]) == FirstComplaint(before, complaint)
                 && forall j :: 0 <= j < i ==> complaint(before[j]).None?;
        assert forall j :: 0 <= j <= i ==> before[j] == xs[j];
      } else if complaint(xs[n]).Some? {
        NoComplaintIffNoneRaised(before, complaint);
        assert forall j :: 0 <= j < n ==> before[j] == xs[j];
      }
    }
  }

  /**
   * `--add-dir` for the parent directory of each image file, each directory once, in the order
   * of first appearance; `seen` is the set of directories added.
   */
  function AddedDirs(paths: seq<string>, parent: string -> Option<string>): (r: (seq<string>, set<string>))
    ensures r.0 != [] ==> r.0[0] == "--add-dir"
    decreases |paths|
  {
    if paths == [] then ([], {})
    else
      var n := |paths| - 1;
      var before := AddedDirs(paths[..n], parent);
      match parent(paths[n])
      case Some(dir) =>
        if dir in before.1 then before
        else (before.0 + ["--add-dir", dir], before.1 + {dir})
      case None => before
  }

  /** The directories of `AddedDirs`, in the order they are added. */
  function DirsAdded(paths: seq<string>, parent: string -> Option<string>): (r: seq<string>)
    decreases |paths|
  {
    if paths == [] then []
    else
      var n := |paths| - 1;
      var before := DirsAdded(paths[..n], parent);
      match parent(paths[n])
      case Some(dir) => if dir in before then before else before + [dir]
      case None => before
  }

  /** The arguments are `--add-dir d` for each directory of `DirsAdded`, and `seen` holds exactly those. */
  lemma {:induction false} AddedDirsArePairs(paths: seq<string>, parent: string -> Option<string>)
    ensures AddedDirs(paths, parent) == (Pairs("--add-dir", DirsAdded(paths, parent)), set d | d in DirsAdded(paths, parent))
    decreases |paths|
  {
    if paths == [] {
      assert (set d | d in DirsAdded(paths, parent)) == {};
    } else {
      var n := |paths| - 1;
      AddedDirsArePairs(paths[..n], parent);
      var before := DirsAdded(paths[..n], parent);
      match parent(paths[n])
      case Some(dir) =>
        if dir !in before {
          var after := before + [dir];
          assert after[..|after| - 1] == before;
          assert (set d | d in after) == (set d | d in before) + {dir};
        }
      case None =>
    }
  }

  predicate Distinct(s: seq<string>)
  {
    forall i, j :: 0 <= i < j < |s| ==> s[i] != s[j]
  }

  /** Each directory is added once. */
  lemma {:induction false} DirsAddedAreDistinct(paths: seq<string>, parent: string -> Option<string>)
    ensures Distinct(DirsAdded(paths, parent))
    decreases |paths|
  {
    if paths != [] {
      var n := |paths| - 1;
      DirsAddedAreDistinct(paths[..n], parent);
      var before := DirsAdded(paths[..n], parent);
      match parent(paths[n])
      case Some(dir) =>
        if dir !in before {
          var after := before + [dir];
          assert DirsAdded(paths, parent) == after;
          forall i, j | 0 <= i < j < |after|
            ensures after[i] != after[j]
          {
            assert after[i] == before[i] && before[i] in before;
            if j < |before| {
              assert after[j] == before[j];
            } else {
              assert after[j] == dir;
            }
          }
        } else {
          assert DirsAdded(paths, parent) == before;
        }
      case None =>
        assert DirsAdded(paths, parent) == before;
    }
  }

  /** The directories added are exactly the parents of the image files. */
  lemma {:induction false} DirsAddedAreParents(paths: seq<string>, parent: string -> Option<string>)
    ensures forall i :: 0 <= i < |paths| && parent(paths[i]).Some? ==> parent(paths[i]).value in DirsAdded(paths, parent)
    ensures forall d :: d in DirsAdded(paths, parent) ==> exists i :: 0 <= i < |paths| && parent(paths[i]) == Some(d)
    decreases |paths|
  {
    if paths != [] {
      var n := |paths| - 1;
      DirsAddedAreParents(paths[..n], parent);
      assert forall i :: 0 <= i < n ==> paths[..n][i] == paths[i];
    }
  }

  /** The images of the harness, none when absent. */
  function Images(harness: HarnessRequestOptions): seq<HarnessImage>
  {
    if harness.images.Some? then harness.images.value else []
  }

  /** The arguments of the harness options before the images. */
  function OptionArgs(harness: HarnessRequestOptions, host: Host): (r: seq<string>)
    ensures OpensWithOption(r)
  {
    var permission := PermissionArgs(harness);
    var dirs := DirArgs(harness);
    var mcp := HarnessMcpArgs(harness, host.codec);
    var structured := StructuredPart(harness, host).0;
    OpensWithOptionAppend(permission, dirs);
    OpensWithOptionAppend(permission + dirs, mcp);
    OpensWithOptionAppend(permission + dirs + mcp, structured);
    permission + dirs + mcp + structured
  }

  /** The image arguments: the new parent directories, then each file. */
  function ImageArgs(paths: seq<string>, host: Host): (r: seq<string>)
    ensures OpensWithOption(r)
  {
    var dirs := AddedDirs(paths, host.parent).0;
    var files := Pairs("--image", paths);
    OpensWithOptionAppend(dirs, files);
    dirs + files
  }

  /** Everything the harness options contribute: arguments and metadata, or an image error. */
  function HarnessPart(harness: HarnessRequestOptions, host: Host): (r: AppResult<(seq<string>, CommandMeta)>)
    ensures r.Ok? ==> OpensWithOption(r.value.0)
  {
    match ImagePaths(Images(harness), host)
    case Err(e) => Err(e)
    case Ok(paths) =>
      var meta := StructuredPart(harness, host).1;
      OpensWithOptionAppend(OptionArgs(harness, host), ImageArgs(paths, host));
      Ok((OptionArgs(harness, host) + ImageArgs(paths, host), meta.(cleanupPaths := meta.cleanupPaths + paths)))
  }

  // ---- optional flags ----

  function UnsupportedFlagMessage(key: string): string
  {
    "Unsupported codex flag value type for '" + key + "'."
  }

  /** A flag value Codex can take: a boolean, a number or a string. */
  predicate SupportedValue(v: Json.Value)
  {
    v.Bool? || v.Num? || v.Str?
  }

  /** The arguments of one flag: `--key` for true, `--key value` for a number or string. */
  function FlagPair(key: string, v: Json.Value): (r: seq<string>)
    requires SupportedValue(v)
    ensures v == Json.Bool(false) <==> r == []
    ensures r != [] ==> r[0] == "--" + key
  {
    match v
    case Bool(b) => if b then ["--" + key] else []
    case Num(n) => ["--" + key, NumberText(n)]
    case Str(s) => ["--" + key, s]
  }

  /**
   * The optional flags in key order: the backend's own `__` keys are skipped, and the first
   * flag whose value is not a boolean, number or string is an error.
   */
  function FlagArgs(keys: seq<string>, flags: map<string, Json.Value>): (r: AppResult<seq<string>>)
    requires forall k :: k in keys ==> k in flags
    ensures r.Ok? ==> OpensWithOption(r.value)
    decreases |keys|
  {
    if keys == [] then Ok([])
    else
      var n := |keys| - 1;
      var before := FlagArgs(keys[..n], flags);
      var key := keys[n];
      if before.Err? || !PassedOn(key) then before
      else if !SupportedValue(flags[key]) then Err(Cli(UnsupportedFlagMessage(key)))
      else
        OpensWithOptionAppend(before.value, FlagPair(key, flags[key]));
        Ok(before.value + FlagPair(key, flags[key]))
  }

  /**
   * The flags fail exactly when a flag passed on has a value of another type, and then the
   * error names the first such key.
   */
  lemma {:induction false} FlagArgsFailIffUnsupported(keys: seq<string>, flags: map<string, Json.Value>)
    requires forall k :: k in keys ==> k in flags
    ensures FlagArgs(keys, flags).Err? <==> exists i :: 0 <= i < |keys| && PassedOn(keys[i]) && !SupportedValue(flags[keys[i]])
    ensures FlagArgs(keys, flags).Err? ==>
              exists i :: 0 <= i < |keys| && PassedOn(keys[i]) && !SupportedValue(flags[keys[i]])
                && FlagArgs(keys, flags).error == Cli(UnsupportedFlagMessage(keys[i]))
                && forall j :: 0 <= j < i && PassedOn(keys[j]) ==> SupportedValue(flags[keys[j]])
  {
    if FlagArgs(keys, flags).Err? {
      var i := FirstUnsupportedFlag(keys, flags);
    } else {
      AcceptedFlagsSupported(keys, flags);
    }
  }

  /** A failure names a flag passed on with an unsupported value, the first such flag. */
  lemma {:induction false} FirstUnsupportedFlag(keys: seq<string>, flags: map<string, Json.Value>) returns (i: nat)
    requires forall k :: k in keys ==> k in flags
    requires FlagArgs(keys, flags).Err?
    ensures i < |keys| && PassedOn(keys[i]) && !SupportedValue(flags[keys[i]])
    ensures FlagArgs(keys, flags).error == Cli(UnsupportedFlagMessage(keys[i]))
    ensures forall j :: 0 <= j < i && PassedOn(keys[j]) ==> SupportedValue(flags[keys[j]])
    decreases |keys|
  {
    var n := |keys| - 1;
    var prefix := keys[..n];
    if FlagArgs(prefix, flags).Err? {
      i := FirstUnsupportedFlag(prefix, flags);
      assert keys[i] == prefix[i];
      assert forall j :: 0 <= j < i ==> keys[j] == prefix[j];
    } else {
      i := n;
      AcceptedFlagsSupported(prefix, flags);
      assert forall j :: 0 <= j < n ==> keys[j] == prefix[j];
    }
  }

  /** Flags that are accepted all have supported values, where they are passed on. */
  lemma {:induction false} AcceptedFlagsSupported(keys: seq<string>, flags: map<string, Json.Value>)
    requires forall k :: k in keys ==> k in flags
    requires FlagArgs(keys, flags).Ok?
    ensures forall j :: 0 <= j < |keys| && PassedOn(keys[j]) ==> SupportedValue(flags[keys[j]])
    decreases |keys|
  {
    if keys != [] {
      var n := |keys| - 1;
      var prefix := keys[..n];
      assert FlagArgs(prefix, flags).Ok? && (PassedOn(keys[n]) ==> SupportedValue(flags[keys[n]]));
      AcceptedFlagsSupported(prefix, flags);
      forall j | 0 <= j < n && PassedOn(keys[j])
        ensures SupportedValue(flags[keys[j]])
      {
        assert keys[j] == prefix[j];
      }
    }
  }

  /** Each flag passed on with a value of `true`, a number or a string appears as `--key`. */
  lemma {:induction false} FlagArgsNameEveryFlag(keys: seq<string>, flags: map<string, Json.Value>, k: string)
    requires forall k :: k in keys ==> k in flags
    requires FlagArgs(keys, flags).Ok?
    requires k in keys && PassedOn(k) && flags[k] != Json.Bool(false)
    ensures "--" + k in FlagArgs(keys, flags).value
    decreases |keys|
  {
    var n := |keys| - 1;
    var before := FlagArgs(keys[..n], flags);
    var all := FlagArgs(keys, flags).value;
    assert before.Ok?;
    assert all == before.value || (SupportedValue(flags[keys[n]]) && all == before.value + FlagPair(keys[n], flags[keys[n]]));
    if keys[n] == k {
      assert all == before.value + FlagPair(k, flags[k]);
      assert all[|before.value|] == "--" + k;
    } else {
      var i :| 0 <= i < |keys| && keys[i] == k;
      assert keys[..n][i] == k;
      FlagArgsNameEveryFlag(keys[..n], flags, k);
    }
  }

  /** The backend's own `__` flags are not passed to the CLI. */
  lemma {:induction false} FlagArgsSkipInternal(keys: seq<string>, flags: map<string, Json.Value>, v: Json.Value)
    requires forall k :: k in keys ==> k in flags
    ensures forall i :: 0 <= i < |keys| && !PassedOn(keys[i]) ==>
              FlagArgs(keys, flags) == FlagArgs(keys, flags[keys[i] := v])
  {
    forall i | 0 <= i < |keys| && !PassedOn(keys[i])
      ensures FlagArgs(keys, flags) == FlagArgs(keys, flags[keys[i] := v])
    {
      FlagArgsIgnoreKey(keys, flags, keys[i], v);
    }
  }

  lemma {:induction false} FlagArgsIgnoreKey(keys: seq<string>, flags: map<string, Json.Value>, key: string, v: Json.Value)
    requires forall k :: k in keys ==> k in flags
    requires !PassedOn(key)
    ensures FlagArgs(keys, flags) == FlagArgs(keys, flags[key := v])
    decreases |keys|
  {
    if keys != [] {
      FlagArgsIgnoreKey(keys[..|keys| - 1], flags, key, v);
    }
  }

  // ---- the prompt and the environment ----

  predicate HasImages(payload: StartRunPayload)
  {
    payload.harness.Some? && payload.harness.value.images.Some? && payload.harness.value.images.value != []
  }

  /** A non-interactive run ends with its prompt, after `--` when images were attached. */
  function PromptArgs(payload: StartRunPayload): (r: seq<string>)
    ensures payload.mode.Interactive? ==> r == []
    ensures payload.mode.NonInteractive? ==> r != [] && r[|r| - 1] == payload.prompt
    ensures payload.mode.NonInteractive? && HasImages(payload) ==> r == ["--", payload.prompt]
  {
    if payload.mode.Interactive? then []
    else (if HasImages(payload) then ["--"] else []) + [payload.prompt]
  }

  function CommandEnv(payload: StartRunPayload): (r: map<string, string>)
    ensures "CODEX_NON_INTERACTIVE" in r <==> payload.mode.NonInteractive?
    ensures r.Keys <= {"CODEX_NON_INTERACTIVE"} && (forall k :: k in r ==> r[k] == "1")
  {
    if payload.mode.NonInteractive? then map["CODEX_NON_INTERACTIVE" := "1"] else map[]
  }

  // ---- the whole command ----

  /** The arguments before the harness's: mode, model, git check and JSON events. */
  function HeadArgs(payload: StartRunPayload, host: Host): seq<string>
  {
    ModeArgs(payload) + ModelArgs(payload) + GitArgs(host.isGitRepo) + JsonArgs(payload)
  }

  /** The command `build_command` returns, or its error. */
  function Command(payload: StartRunPayload, capability: CapabilityProfile, binaryPath: string, host: Host)
    : AppResult<ValidatedCommand>
  {
    if capability.blocked then Err(Cli(BlockedMessage))
    else
      var harness := if payload.harness.Some? then HarnessPart(payload.harness.value, host) else Ok(([], NoMeta));
      if harness.Err? then Err(harness.error)
      else
        var flags := FlagArgs(Policy.FlagKeys(payload), payload.optionalFlags);
        if flags.Err? then Err(flags.error)
        else
          Ok(ValidatedCommand(binaryPath, HeadArgs(payload, host) + harness.value.0 + flags.value + PromptArgs(payload),
                              payload.cwd, CommandEnv(payload), None, harness.value.1))
  }

  /** A profile that blocks the CLI refuses every run. */
  lemma BlockedProfileRefuses(payload: StartRunPayload, capability: CapabilityProfile, binaryPath: string, host: Host)
    requires capability.blocked
    ensures Command(payload, capability, binaryPath, host) == Err(Cli(BlockedMessage))
  {
  }

  /**
   * The arguments split into the mode segment and the rest, where the rest opens with an
   * option; the prompt closes them.
   */
  lemma CommandArgsShape(payload: StartRunPayload, capability: CapabilityProfile, binaryPath: string, host: Host)
    returns (rest: seq<string>)
    requires Command(payload, capability, binaryPath, host).Ok?
    ensures Command(payload, capability, binaryPath, host).value.args == ModeArgs(payload) + rest + PromptArgs(payload)
    ensures OpensWithOption(rest)
  {
    var harness := if payload.harness.Some? then HarnessPart(payload.harness.value, host) else Ok(([], NoMeta));
    var flags := FlagArgs(Policy.FlagKeys(payload), payload.optionalFlags);
    rest := Regroup(ModeArgs(payload), ModelArgs(payload), GitArgs(host.isGitRepo), JsonArgs(payload),
                        harness.value.0, flags.value, PromptArgs(payload));
  }

  /** The segments after the mode, grouped together. */
  lemma Regroup(mode: seq<string>, model: seq<string>, git: seq<string>, json: seq<string>, h: seq<string>,
                f: seq<string>, prompt: seq<string>) returns (rest: seq<string>)
    requires OpensWithOption(model) && OpensWithOption(git) && OpensWithOption(json)
    requires OpensWithOption(h) && OpensWithOption(f)
    ensures mode + model + git + json + h + f + prompt == mode + rest + prompt && OpensWithOption(rest)
  {
    var r1 := model + git;
    var r2 := r1 + json;
    var r3 := r2 + h;
    rest := r3 + f;
    Associative(mode, model, git);
    Associative(mode, r1, json);
    Associative(mode, r2, h);
    Associative(mode, r3, f);
    OpensWithOptionAppend(model, git);
    OpensWithOptionAppend(r1, json);
    OpensWithOptionAppend(r2, h);
    OpensWithOptionAppend(r3, f);
  }

  /** The command opens with `exec` exactly when the run is non-interactive. */
  lemma ExecIffNonInteractive(payload: StartRunPayload, capability: CapabilityProfile, binaryPath: string, host: Host,
                              cmd: ValidatedCommand)
    requires Command(payload, capability, binaryPath, host) == Ok(cmd)
    ensures (cmd.args != [] && cmd.args[0] == "exec") <==> payload.mode.NonInteractive?
  {
    var rest := CommandArgsShape(payload, capability, binaryPath, host);
    ExecOfArgs(payload, cmd.args, rest);
  }

  lemma ExecOfArgs(payload: StartRunPayload, args: seq<string>, rest: seq<string>)
    requires args == ModeArgs(payload) + rest + PromptArgs(payload) && OpensWithOption(rest)
    ensures (args != [] && args[0] == "exec") <==> payload.mode.NonInteractive?
  {
    if payload.mode.Interactive? {
      assert args == rest;
      if rest != [] {
        assert rest[0] != "exec" by { assert rest[0][0] == '-'; }
      }
    }
  }

  /**
   * A non-interactive run resumes the last session when asked to continue, else the session
   * with the resume id, right after `exec`; and its last argument is the prompt, after `--`
   * when images are attached.
   */
  lemma NonInteractiveFrame(payload: StartRunPayload, capability: CapabilityProfile, binaryPath: string, host: Host,
                            cmd: ValidatedCommand)
    requires Command(payload, capability, binaryPath, host) == Ok(cmd) && payload.mode.NonInteractive?
    ensures |cmd.args| >= 2 && cmd.args[0] == "exec" && cmd.args[|cmd.args| - 1] == payload.prompt
    ensures HasImages(payload) ==> cmd.args[|cmd.args| - 2] == "--"
    ensures ContinueSession(payload) || ResumeSessionId(payload).Some? ==> |cmd.args| >= 3
    ensures ContinueSession(payload) ==> cmd.args[1..3] == ["resume", "--last"]
    ensures !ContinueSession(payload) && ResumeSessionId(payload).Some? ==>
              cmd.args[1..3] == ["resume", ResumeSessionId(payload).value]
  {
    var rest := CommandArgsShape(payload, capability, binaryPath, host);
    FrameOfArgs(payload, cmd.args, rest);
  }

  lemma FrameOfArgs(payload: StartRunPayload, args: seq<string>, rest: seq<string>)
    requires args == ModeArgs(payload) + rest + PromptArgs(payload) && payload.mode.NonInteractive?
    ensures |args| >= 2 && args[0] == "exec" && args[|args| - 1] == payload.prompt
    ensures HasImages(payload) ==> args[|args| - 2] == "--"
    ensures ContinueSession(payload) || ResumeSessionId(payload).Some? ==> |args| >= 3
    ensures ContinueSession(payload) ==> args[1..3] == ["resume", "--last"]
    ensures !ContinueSession(payload) && ResumeSessionId(payload).Some? ==>
              args[1..3] == ["resume", ResumeSessionId(payload).value]
  {
    var mode, prompt := ModeArgs(payload), PromptArgs(payload);
    Ends(mode, rest, prompt);
  }

  /** What the first and last segments of a concatenation fix. */
  lemma Ends(front: seq<string>, middle: seq<string>, back: seq<string>)
    ensures var all := front + middle + back;
            && all[..|front|] == front
            && all[|all| - |back|..] == back
  {
  }

  /** A non-interactive run asks for JSON events unless another output format is named. */
  lemma JsonEventsRequested(payload: StartRunPayload, capability: CapabilityProfile, binaryPath: string, host: Host,
                            cmd: ValidatedCommand)
    requires Command(payload, capability, binaryPath, host) == Ok(cmd)
    requires payload.mode.NonInteractive? && JsonFormat(payload.outputFormat)
    ensures "--json" in cmd.args
  {
    var middle := Assembled(payload, capability, binaryPath, host, cmd);
    JsonInHead(payload, host);
    InFront(HeadArgs(payload, host), middle, PromptArgs(payload), "--json");
  }

  /** The command's arguments: the head, whatever the harness and flags add, and the prompt. */
  lemma Assembled(payload: StartRunPayload, capability: CapabilityProfile, binaryPath: string, host: Host,
                  cmd: ValidatedCommand) returns (middle: seq<string>)
    requires Command(payload, capability, binaryPath, host) == Ok(cmd)
    ensures cmd.args == HeadArgs(payload, host) + middle + PromptArgs(payload)
  {
    var harness := if payload.harness.Some? then HarnessPart(payload.harness.value, host) else Ok(([], NoMeta));
    var flags := FlagArgs(Policy.FlagKeys(payload), payload.optionalFlags);
    middle := harness.value.0 + flags.value;
    Associative(HeadArgs(payload, host), harness.value.0, flags.value);
  }

  lemma JsonInHead(payload: StartRunPayload, host: Host)
    requires payload.mode.NonInteractive? && JsonFormat(payload.outputFormat)
    ensures "--json" in HeadArgs(payload, host)
  {
    assert "--json" in JsonArgs(payload);
  }

  lemma InFront(front: seq<string>, middle: seq<string>, back: seq<string>, x: string)
    requires x in front
    ensures x in front + middle + back
  {
  }

  /** The harness's arguments appear in the command as one block, and its metadata is the command's. */
  lemma CommandHarness(payload: StartRunPayload, capability: CapabilityProfile, binaryPath: string, host: Host,
                       cmd: ValidatedCommand)
    requires Command(payload, capability, binaryPath, host) == Ok(cmd) && payload.harness.Some?
    ensures HarnessPart(payload.harness.value, host).Ok?
    ensures cmd.meta == HarnessPart(payload.harness.value, host).value.1
    ensures exists pre, post :: cmd.args == pre + HarnessPart(payload.harness.value, host).value.0 + post
  {
    var h := HarnessPart(payload.harness.value, host).value.0;
    var flags := FlagArgs(Policy.FlagKeys(payload), payload.optionalFlags).value;
    InBlock(HeadArgs(payload, host), h, flags, PromptArgs(payload));
  }

  /** The second of four segments sits between a prefix and a suffix of the whole. */
  lemma InBlock(head: seq<string>, block: seq<string>, flags: seq<string>, prompt: seq<string>)
    ensures exists pre, post :: head + block + flags + prompt == pre + block + post
  {
    Associative(head + block, flags, prompt);
    assert head + block + flags + prompt == head + block + (flags + prompt);
  }

  /**
   * With permissions, the approval policy and sandbox are always passed; with structured
   * output, both output files are named and scheduled for removal.
   */
  lemma HarnessPartPassesOptions(harness: HarnessRequestOptions, host: Host)
    requires HarnessPart(harness, host).Ok?
    ensures var part := HarnessPart(harness, host).value;
            && (harness.permissions.Some? ==> "--ask-for-approval" in part.0 && "--sandbox" in part.0)
            && (harness.structuredOutput.Some? ==>
                  "--output-schema" in part.0 && "--output-last-message" in part.0
                  && SchemaPath(host) in part.1.cleanupPaths && OutputPath(host) in part.1.cleanupPaths)
  {
    var permission := PermissionArgs(harness);
    var structured := StructuredPart(harness, host).0;
    if harness.permissions.Some? {
      SearchIffNetworkAndWebSearch(harness);
    }
    if harness.structuredOutput.Some? {
      assert "--output-schema" in structured && "--output-last-message" in structured;
    }
  }

  /** The same, for the whole command (the adapter's own test of permissions and structured output). */
  lemma HarnessOptionsArePassed(payload: StartRunPayload, capability: CapabilityProfile, binaryPath: string, host: Host,
                                cmd: ValidatedCommand)
    requires Command(payload, capability, binaryPath, host) == Ok(cmd) && payload.harness.Some?
    ensures payload.harness.value.permissions.Some? ==> "--ask-for-approval" in cmd.args && "--sandbox" in cmd.args
    ensures payload.harness.value.structuredOutput.Some? ==>
              "--output-schema" in cmd.args && "--output-last-message" in cmd.args
              && SchemaPath(host) in cmd.meta.cleanupPaths && OutputPath(host) in cmd.meta.cleanupPaths
  {
    CommandHarness(payload, capability, binaryPath, host, cmd);
    HarnessPartPassesOptions(payload.harness.value, host);
    var part := HarnessPart(payload.harness.value, host).value.0;
    var pre, post :| cmd.args == pre + part + post;
    assert forall x :: x in part ==> x in cmd.args;
  }

  /** Every image file named on the command line is also scheduled for removal. */
  lemma ImagesAreCleanedUp(payload: StartRunPayload, capability: CapabilityProfile, binaryPath: string, host: Host)
    requires Command(payload, capability, binaryPath, host).Ok? && payload.harness.Some?
    ensures var cmd := Command(payload, capability, binaryPath, host).value;
            forall image :: image in Images(payload.harness.value) ==> ImagePath(image, host) in cmd.meta.cleanupPaths
  {
    var h := payload.harness.value;
    var paths := ImagePaths(Images(h), host).value;
    forall image | image in Images(h)
      ensures ImagePath(image, host) in Command(payload, capability, binaryPath, host).value.meta.cleanupPaths
    {
      var i :| 0 <= i < |Images(h)| && Images(h)[i] == image;
      PathsOfIndex(Images(h), host, i);
    }
  }

  lemma SessionIdIsTrimmed()
    ensures !IsBlank("session-123") && Trim("session-123") == "session-123"
  {
    assert "session-123"[0] == 's' && !IsWhitespace('s');
  }

  /** The run of the adapter's resume test is accepted, with the flag's session id. */
  lemma ResumeCommandAccepted(payload: StartRunPayload, capability: CapabilityProfile, binaryPath: string, host: Host)
    requires !capability.blocked && payload.harness.None?
    requires "__resume_session_id" in payload.optionalFlags && payload.optionalFlags["__resume_session_id"] == Json.Str("session-123")
    requires forall k :: k in payload.optionalFlags && PassedOn(k) ==> SupportedValue(payload.optionalFlags[k])
    ensures Command(payload, capability, binaryPath, host).Ok?
  {
    SupportedFlagsAccepted(Policy.FlagKeys(payload), payload.optionalFlags);
    AcceptedWithoutHarness(payload, capability, binaryPath, host);
  }

  /** Without a harness, an unblocked CLI takes the run exactly when its flags are accepted. */
  lemma AcceptedWithoutHarness(payload: StartRunPayload, capability: CapabilityProfile, binaryPath: string, host: Host)
    requires !capability.blocked && payload.harness.None?
    ensures Command(payload, capability, binaryPath, host).Ok? <==> FlagArgs(Policy.FlagKeys(payload), payload.optionalFlags).Ok?
  {
  }

  /** Flags whose values passed on are all supported are accepted. */
  lemma SupportedFlagsAccepted(keys: seq<string>, flags: map<string, Json.Value>)
    requires forall k :: k in keys ==> k in flags
    requires forall k :: k in flags && PassedOn(k) ==> SupportedValue(flags[k])
    ensures FlagArgs(keys, flags).Ok?
  {
    forall i | 0 <= i < |keys| && PassedOn(keys[i])
      ensures SupportedValue(flags[keys[i]])
    {
      assert keys[i] in keys;
    }
    FlagArgsFailIffUnsupported(keys, flags);
  }

  /** Without a harness, the resume id is the internal flag's, trimmed. */
  lemma FlagSessionId(payload: StartRunPayload)
    requires payload.harness.None?
    requires "__resume_session_id" in payload.optionalFlags && payload.optionalFlags["__resume_session_id"] == Json.Str("session-123")
    ensures ResumeSessionId(payload) == Some("session-123") && !ContinueSession(payload)
  {
    SessionIdIsTrimmed();
  }

  // ---- the imperative builder ----

  /** One `env.<name>` setting per variable, in the order of `names`. */
  method PushEnv(key: string, env: map<string, string>, names: seq<string>, codec: JsonCodec) returns (settings: seq<string>)
    requires forall n :: n in names ==> n in env
    ensures settings == EnvSettings(key, env, names, codec)
  {
    settings := [];
    var i := 0;
    while i < |names|
      invariant 0 <= i <= |names|
      invariant settings == EnvSettings(key, env, names[..i], codec)
    {
      assert names[..i + 1][..i] == names[..i];
      settings := settings + Setting(key, "env." + names[i], codec.render(Json.Str(env[names[i]])));
      i := i + 1;
    }
    assert names[..i] == names;
  }

  /** The overrides of one server, pushed setting by setting. */
  method PushServer(server: McpServer, codec: JsonCodec) returns (args: seq<string>)
    ensures args == ServerArgs(server, codec)
  {
    args := [];
    if server.enabled == Some(false) {
      return;
    }
    var key := SanitizeMcpKey(server.name);
    args := ServerHead(server, key, codec);
    var settings := [];
    if server.env.Some? {
      settings := PushEnv(key, server.env.value, EnvNames(server), codec);
    }
    args := args + settings;
    args := args + ServerTail(server, key, codec);
  }

  /** The image files, in order, stopping at the first payload that does not decode. */
  method CollectImages(images: seq<HarnessImage>, host: Host) returns (r: AppResult<seq<string>>)
    ensures r == ImagePaths(images, host)
  {
    var paths: seq<string> := [];
    var i := 0;
    while i < |images|
      invariant 0 <= i <= |images|
      invariant FirstDecodeError(images[..i], host).None?
      invariant paths == PathsOf(images[..i], host)
    {
      ImageStep(images, i, host);
      var error := DecodeError(images[i], host);
      if error.Some? {
        ErrorPersists(images, i + 1, host);
        return Err(Cli("Invalid image base64 payload: " + error.value));
      }
      paths := paths + [ImagePath(images[i], host)];
      i := i + 1;
    }
    assert images[..i] == images;
    r := Ok(paths);
  }

  /** One more image: its complaint comes after those of the images before it, its file after theirs. */
  lemma ImageStep(images: seq<HarnessImage>, i: nat, host: Host)
    requires i < |images|
    ensures FirstDecodeError(images[..i + 1], host)
            == if FirstDecodeError(images[..i], host).Some? then FirstDecodeError(images[..i], host)
               else DecodeError(images[i], host)
    ensures PathsOf(images[..i + 1], host) == PathsOf(images[..i], host) + [ImagePath(images[i], host)]
  {
    assert images[..i + 1][..i] == images[..i];
  }

  /** Once a prefix of the images holds an undecodable payload, the first complaint stays. */
  lemma {:induction false} ErrorPersists(images: seq<HarnessImage>, k: nat, host: Host)
    requires k <= |images| && FirstDecodeError(images[..k], host).Some?
    ensures FirstDecodeError(images, host) == FirstDecodeError(images[..k], host)
    decreases |images| - k
  {
    if k == |images| {
      assert images[..k] == images;
    } else {
      assert images[..k + 1][..k] == images[..k];
      ErrorPersists(images, k + 1, host);
    }
  }

  /** `--add-dir` for each new parent directory, remembering those already added. */
  method PushImageDirs(paths: seq<string>, parent: string -> Option<string>) returns (args: seq<string>)
    ensures args == AddedDirs(paths, parent).0
  {
    args := [];
    var added: set<string> := {};
    var i := 0;
    while i < |paths|
      invariant 0 <= i <= |paths|
      invariant AddedDirs(paths[..i], parent) == (args, added)
    {
      assert paths[..i + 1][..i] == paths[..i];
      var dir := parent(paths[i]);
      if dir.Some? && dir.value !in added {
        added := added + {dir.value};
        args := args + ["--add-dir", dir.value];
      }
      i := i + 1;
    }
    assert paths[..i] == paths;
  }

  /** The optional flags in key order, stopping at the first unsupported value. */
  method PushFlags(keys: seq<string>, flags: map<string, Json.Value>) returns (r: AppResult<seq<string>>)
    requires forall k :: k in keys ==> k in flags
    ensures r == FlagArgs(keys, flags)
  {
    var args: seq<string> := [];
    var i := 0;
    while i < |keys|
      invariant 0 <= i <= |keys|
      invariant FlagArgs(keys[..i], flags) == Ok(args)
    {
      assert keys[..i + 1][..i] == keys[..i];
      var key := keys[i];
      if PassedOn(key) {
        match flags[key] {
          case Bool(b) =>
            if b {
              args := args + ["--" + key];
            } else {
              assert args + FlagPair(key, flags[key]) == args;
            }
          case Num(n) =>
            args := args + ["--" + key, NumberText(n)];
          case Str(s) =>
            args := args + ["--" + key, s];
          case _ =>
            r := Err(Cli(UnsupportedFlagMessage(key)));
            FlagErrorPersists(keys, i + 1, flags);
            return;
        }
      }
      i := i + 1;
    }
    assert keys[..i] == keys;
    r := Ok(args);
  }

  lemma {:induction false} FlagErrorPersists(keys: seq<string>, k: nat, flags: map<string, Json.Value>)
    requires forall key :: key in keys ==> key in flags
    requires k <= |keys| && FlagArgs(keys[..k], flags).Err?
    ensures FlagArgs(keys, flags) == FlagArgs(keys[..k], flags)
    decreases |keys| - k
  {
    if k == |keys| {
      assert keys[..k] == keys;
    } else {
      assert keys[..k + 1][..k] == keys[..k];
      FlagErrorPersists(keys, k + 1, flags);
    }
  }

  /** The overrides of every server, in order. */
  method PushMcp(servers: seq<McpServer>, codec: JsonCodec) returns (args: seq<string>)
    ensures args == McpArgs(servers, codec)
  {
    args := [];
    var i := 0;
    while i < |servers|
      invariant 0 <= i <= |servers|
      invariant args == McpArgs(servers[..i], codec)
    {
      assert servers[..i + 1][..i] == servers[..i];
      var part := PushServer(servers[i], codec);
      args := args + part;
      i := i + 1;
    }
    assert servers[..i] == servers;
  }

  /** The harness's arguments and metadata, pushed option by option. */
  method PushHarness(h: HarnessRequestOptions, host: Host) returns (r: AppResult<(seq<string>, CommandMeta)>)
    ensures r == HarnessPart(h, host)
  {
    var args := PermissionArgs(h) + DirArgs(h);
    if h.mcp.Some? {
      var mcp := PushMcp(h.mcp.value.servers, host.codec);
      args := args + mcp;
    }
    var structured := StructuredPart(h, host);
    args := args + structured.0;
    var meta := structured.1;
    assert args == OptionArgs(h, host);
    var collected := CollectImages(Images(h), host);
    if collected.Err? {
      return Err(collected.error);
    }
    var paths := collected.value;
    var dirs := PushImageDirs(paths, host.parent);
    args := args + (dirs + Pairs("--image", paths));
    meta := meta.(cleanupPaths := meta.cleanupPaths + paths);
    r := Ok((args, meta));
  }

  /** `build_command`: the arguments pushed segment by segment, as `Command` composes them. */
  method BuildCommand(payload: StartRunPayload, capability: CapabilityProfile, binaryPath: string, host: Host)
    returns (r: AppResult<ValidatedCommand>)
    ensures r == Command(payload, capability, binaryPath, host)
  {
    if capability.blocked {
      return Err(Cli(BlockedMessage));
    }
    var harness: AppResult<(seq<string>, CommandMeta)> := Ok(([], NoMeta));
    if payload.harness.Some? {
      harness := PushHarness(payload.harness.value, host);
      if harness.Err? {
        return Err(harness.error);
      }
    }
    var flags := PushFlags(Policy.FlagKeys(payload), payload.optionalFlags);
    if flags.Err? {
      return Err(flags.error);
    }
    var args := HeadArgs(payload, host) + harness.value.0 + flags.value + PromptArgs(payload);
    r := Ok(ValidatedCommand(binaryPath, args, payload.cwd, CommandEnv(payload), None, harness.value.1));
  }
}
