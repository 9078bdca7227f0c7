/** The project-name and last-saved labels of the editor's top bar
    (src/ui/components/top_bar.py). Buttons, layout and styles are not modelled,
    except the name label's colour, which tracks the dirty state. */
module TopBarModule {
  import opened Text

  /** Prefix that marks a project with unsaved changes. */
  const DirtyPrefix: string := "* "

  const UnsavedText: string := "Altera\U{e7}\U{f5}es n\U{e3}o salvas (Pendente) \U{26a0}\U{fe0f}"
  const InitialName: string := "Nome do Projeto"
  const InitialSaved: string := "\U{da}ltima modifica\U{e7}\U{e3}o salva \U{e0}s --:-- \U{2705}"

  /** Text of the last-saved label for a wall-clock time written "HH:mm". */
  function SavedAt(clock: string): string {
    "\U{da}ltima modifica\U{e7}\U{e3}o salva \U{e0}s " + clock + " \U{2705}"
  }

  /** The name text after `set_dirty_state(True)`. */
  function Marked(t: string): (r: string)
    ensures StartsWith(r, DirtyPrefix)
    ensures StartsWith(t, DirtyPrefix) ==> r == t
  {
    if StartsWith(t, DirtyPrefix) then t else DirtyPrefix + t
  }

  /** The name text after `set_dirty_state(False)`. */
  function Unmarked(t: string): (r: string)
    ensures !StartsWith(t, DirtyPrefix) ==> r == t
  {
    if StartsWith(t, DirtyPrefix) then t[|DirtyPrefix|..] else t
  }

  /** Marking twice is marking once: no second prefix is ever added. */
  lemma MarkedIdempotent(t: string)
    ensures Marked(Marked(t)) == Marked(t)
  {
  }

  /** Unmarking removes exactly one leading prefix. */
  lemma UnmarkedRemovesOnePrefix(t: string)
    ensures StartsWith(t, DirtyPrefix) ==> DirtyPrefix + Unmarked(t) == t
    ensures |Unmarked(t)| >= |t| - |DirtyPrefix|
  {
    if StartsWith(t, DirtyPrefix) {
      assert t == t[..2] + t[2..];
    }
  }

  /** For a name without the prefix, dirty followed by clean restores the name. */
  lemma CleanAfterDirtyRestores(t: string)
    requires !StartsWith(t, DirtyPrefix)
    ensures Unmarked(Marked(t)) == t
  {
    assert (DirtyPrefix + t)[|DirtyPrefix|..] == t;
  }

  class TopBar {
    var nameText: string
    var lastSavedText: string
    /** The name label is drawn gold while dirty and white otherwise. */
    var nameGold: bool

    constructor ()
      ensures nameText == InitialName && lastSavedText == InitialSaved && !nameGold
    {
      nameText := InitialName;
      lastSavedText := InitialSaved;
      nameGold := false;
    }

    method SetProjectName(name: string)
      modifies this`nameText
      ensures nameText == name
    {
      nameText := name;
    }

    /** `set_dirty_state`; `clock` is the current wall-clock time "HH:mm" that
        `update_last_saved` reads. */
    method SetDirtyState(isDirty: bool, clock: string)
      modifies this
      ensures nameText == if isDirty then Marked(old(nameText)) else Unmarked(old(nameText))
      ensures lastSavedText == if isDirty then UnsavedText else SavedAt(clock)
      ensures nameGold == isDirty
    {
      var current := nameText;
      if isDirty {
        if !StartsWith(current, DirtyPrefix) {
          nameText := DirtyPrefix + current;
        }
        lastSavedText := UnsavedText;
        nameGold := true;
      } else {
        if StartsWith(current, DirtyPrefix) {
          nameText := current[2..];
        }
        nameGold := false;
        UpdateLastSaved(clock);
      }
    }

    method UpdateLastSaved(clock: string)
      modifies this`lastSavedText
      ensures lastSavedText == SavedAt(clock)
    {
      lastSavedText := SavedAt(clock);
    }
  }
}
