/**
 * The values exchanged with forge/workstream.py and forge/common.py, which
 * are not part of this model: exceptions, command arguments that may hide
 * secrets, commands and HTTP requests as issued, and their results. `call`
 * and `get` themselves are oracles held by the Baker.
 */
module Workstream {
  import opened Common

  /** The exceptions the pipeline distinguishes; `Foreign` is any other exception class, by name. */
  datatype Exc = CLIError(message: string) | WorkError(detail: string) | Foreign(name: string)

  /** A piece of an `Elidable` argument: plain text, or a `Secret` that is hidden when displayed. */
  datatype Fragment = Text(text: string) | Secret(secret: string)

  /** The key `image(registry, repo, name, version)` builds; its spelling is not modelled. */
  datatype Image = Image(registry: string, repo: string, name: string, version: string)

  /** A command-line argument: a plain string, a `Secret`, an `Elidable`, or an image name. */
  datatype Arg = Plain(s: string) | Hidden(secret: string) | Elidable(parts: seq<Fragment>) | ImageName(img: Image)

  /** A `call`: its arguments, its `cwd` and its `verbose` keyword (`None` when not passed). */
  datatype Command = Command(args: seq<Arg>, cwd: Option<string>, verbose: Option<bool>)

  /** What `call` returns: the exit code and the captured output. */
  datatype CallResult = CallResult(code: int, output: string)

  /**
   * A `get`: the URL, basic `auth` as (user, password), the `Authorization`
   * header, and the `expected` and `visible` keywords (`None` when not passed).
   */
  datatype Request = Request(url: string, auth: Option<(string, string)>, authorization: Option<string>,
                             expected: Option<seq<int>>, visible: Option<bool>)

  /**
   * The decoded JSON body, reduced to what the pipeline looks at: whether
   * `signatures` and `fsLayers` are present, the `errors` list with the
   * `code` of each entry, and the `token` field.
   */
  datatype Body = Body(signatures: bool, fsLayers: bool, errors: Option<seq<Option<string>>>, token: Option<string>)

  /**
   * A response: its status, its `Www-Authenticate` header, its body (`None`
   * when it is not JSON) and its raw content.
   */
  datatype Response = Response(status: int, challenge: Option<string>, body: Option<Body>, content: string)

  /**
   * A work item of the Workstream's `items` list, as `render_tail` reads it;
   * `kind` stands for the item's class name.
   */
  datatype WorkItem = WorkItem(kind: string, startSummary: string, finishSummary: string, output: string,
                               finished: bool, ok: bool, visible: bool, verbose: bool)
}
