/** `editorShortcutListener` of src/utils/editor.ts: the keyboard handler
    of the note editor. Escape cancels; `s` with Ctrl or Meta prevents the
    browser's default action and saves; every other key does nothing. */
module Editor {

  datatype Callback = NoCallback | CallCancel | CallSave

  /** What one keystroke does: which callback runs, and whether
      `preventDefault` is called first. */
  datatype KeyReaction = KeyReaction(callback: Callback, preventDefault: bool)

  function OnKeyDown(key: string, ctrlKey: bool, metaKey: bool): (r: KeyReaction)
    ensures r.callback == CallCancel <==> key == "Escape"
    ensures r.callback == CallSave <==> key == "s" && (ctrlKey || metaKey)
    ensures r.preventDefault <==> r.callback == CallSave
  {
    if key == "Escape" then KeyReaction(CallCancel, false)
    else if key == "s" && (ctrlKey || metaKey) then KeyReaction(CallSave, true)
    else KeyReaction(NoCallback, false)
  }

  /** The key match is exact: upper-case `S` never saves, whatever the
      modifiers, and a plain `s` is ordinary typing. */
  lemma ExactKeyMatch(ctrlKey: bool, metaKey: bool)
    ensures OnKeyDown("S", ctrlKey, metaKey) == KeyReaction(NoCallback, false)
    ensures OnKeyDown("s", false, false) == KeyReaction(NoCallback, false)
    ensures OnKeyDown("Escape", ctrlKey, metaKey) == KeyReaction(CallCancel, false)
  {
  }
}
