/**
 * Choosing the text editor for the commit message (src/modules/editor.ts).
 * Environment variables and the answers of the `which vim` and
 * `which nano` probes are inputs; launching the editor is reduced to its
 * exit outcome.
 */
module Editor {
  import opened Base
  import opened JsText

  /** JavaScript `a || b` for an optional string: `a` when it is non-empty, otherwise `b`. */
  function Or(a: Option<string>, b: string): (r: string)
    ensures Truthy(a) ==> r == a.value
    ensures !Truthy(a) ==> r == b
  {
    if Truthy(a) then a.value else b
  }

  /** The editor used when none is found: vim. */
  const DEFAULT_EDITOR: string := "vim"

  /**
   * The command `openEditor` runs: the explicit editor if it is non-empty,
   * else `EDITOR`, else `VISUAL`, else vim; empty values count as unset.
   */
  function EditorToUse(explicit: Option<string>, editorVar: Option<string>, visualVar: Option<string>): (command: string)
    ensures command != []
    ensures Truthy(explicit) ==> command == explicit.value
    ensures !Truthy(explicit) && Truthy(editorVar) ==> command == editorVar.value
    ensures !Truthy(explicit) && !Truthy(editorVar) && Truthy(visualVar) ==> command == visualVar.value
    ensures !Truthy(explicit) && !Truthy(editorVar) && !Truthy(visualVar) ==> command == DEFAULT_EDITOR
  {
    Or(explicit, Or(editorVar, Or(visualVar, DEFAULT_EDITOR)))
  }

  /** How the editor process ended: it could not be started, or it exited with a code. */
  datatype EditorExit = SpawnFailed | Exited(code: int)

  /** What `openEditor` did: the command it ran and whether it returned normally. */
  datatype EditorRun = EditorRun(command: string, ok: bool)

  /**
   * `openEditor`: runs the chosen command on the file; it returns normally
   * exactly when the process could be started and exited with status 0,
   * and fails otherwise.
   */
  function OpenEditor(explicit: Option<string>, editorVar: Option<string>, visualVar: Option<string>, exit: EditorExit): (run: EditorRun)
    ensures run.command == EditorToUse(explicit, editorVar, visualVar)
    ensures run.ok <==> exit == Exited(0)
  {
    EditorRun(EditorToUse(explicit, editorVar, visualVar), exit.Exited? && exit.code == 0)
  }

  /** An availability probe `findAvailableEditor` may run. */
  datatype Probe = ProbeVim | ProbeNano

  /** The outcome of `findAvailableEditor`: the editor found (or failure) and the probes it ran, in order. */
  datatype EditorSearch = EditorSearch(found: Result<string>, probes: seq<Probe>)

  /**
   * `findAvailableEditor`: `EDITOR`, else `VISUAL`, when either is set to
   * something non-empty; otherwise vim if it is installed, then nano, and
   * failure if neither is.  Whatever it finds is a non-empty command from
   * the environment or one of the two probed editors, a probe runs only
   * when the environment names no editor, and it fails only when both
   * probes answer no.
   */
  function FindAvailableEditor(editorVar: Option<string>, visualVar: Option<string>, vimInstalled: bool, nanoInstalled: bool): (s: EditorSearch)
    ensures Truthy(editorVar) ==> s == EditorSearch(Ok(editorVar.value), [])
    ensures !Truthy(editorVar) && Truthy(visualVar) ==> s == EditorSearch(Ok(visualVar.value), [])
    ensures !Truthy(editorVar) && !Truthy(visualVar) ==>
      && s.probes == (if vimInstalled then [ProbeVim] else [ProbeVim, ProbeNano])
      && s.found == (if vimInstalled then Ok("vim") else if nanoInstalled then Ok("nano") else Failed)
    ensures s.found.Ok? ==> s.found.value != []
    ensures s.found.Ok? ==> s.found.value in {"vim", "nano"} || Some(s.found.value) in {editorVar, visualVar}
    ensures s.probes != [] <==> !Truthy(editorVar) && !Truthy(visualVar)
    ensures s.found == Failed <==> !Truthy(editorVar) && !Truthy(visualVar) && !vimInstalled && !nanoInstalled
  {
    var envEditor := Or(editorVar, visualVar.GetOr(""));
    if envEditor != [] then EditorSearch(Ok(envEditor), [])
    else if vimInstalled then EditorSearch(Ok("vim"), [ProbeVim])
    else if nanoInstalled then EditorSearch(Ok("nano"), [ProbeVim, ProbeNano])
    else EditorSearch(Failed, [ProbeVim, ProbeNano])
  }

  /**
   * The editor found is the one launched: passed explicitly to
   * `openEditor`, it takes precedence over the environment.
   */
  lemma FoundEditorIsLaunched(editorVar: Option<string>, visualVar: Option<string>, vimInstalled: bool, nanoInstalled: bool)
    requires FindAvailableEditor(editorVar, visualVar, vimInstalled, nanoInstalled).found.Ok?
    ensures var e := FindAvailableEditor(editorVar, visualVar, vimInstalled, nanoInstalled).found.value;
      EditorToUse(Some(e), editorVar, visualVar) == e
  {
  }
}
