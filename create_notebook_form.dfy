/** The new-notebook form (components/CreateNotebookForm.tsx): a name, one of the
    offered icons, and a submit that creates the notebook and resets the form. */
module CreateNotebookForm {
  import opened Types
  import opened Strings
  import opened Data

  /** The icons the form offers, in their order on screen. */
  const NotebookIcons: seq<string> := [
    "\U{1F4D3}", "\U{1F4D4}", "\U{1F4D5}", "\U{1F4D7}", "\U{1F4D8}", "\U{1F4D9}", "\U{1F5C2}\U{FE0F}", "\U{1F4C1}",
    "\U{1F4BC}", "\U{1F3AF}", "\U{1F4A1}", "\U{1F52C}", "\U{1F3A8}", "\U{1F6E0}\U{FE0F}", "\U{1F4BB}", "\U{1F4CA}"]

  /** Submit goes ahead when the name has something besides whitespace and no
      submit is running. */
  predicate CanCreate(name: string, isSubmitting: bool) {
    !AllWhitespace(name) && !isSubmitting
  }

  /** The guard agrees with the source's `!name.trim() || isSubmitting` test. */
  lemma CanCreateTrims(name: string, isSubmitting: bool)
    ensures CanCreate(name, isSubmitting) <==> Trim(name) != "" && !isSubmitting
  {
  }

  /** The notebook an accepted submit creates. */
  function CreatedNotebook(name: string, icon: string, id: string, now: int): Notebook {
    NewNotebook(id, Trim(name), Some(icon), None, now)
  }

  /** An accepted submit creates an empty notebook whose name is the typed name
      without its surrounding whitespace (so it is non-empty and trimming it again
      changes nothing), with the chosen icon and the default colour. */
  lemma CreatedNotebookIsClean(name: string, icon: string, id: string, now: int)
    requires !AllWhitespace(name)
    ensures var nb := CreatedNotebook(name, icon, id, now);
      nb.name != "" && Trim(nb.name) == nb.name && nb.icon == icon && nb.color == DefaultColor
      && nb.itemCount == 0 && nb.id == id
  {
    TrimIdempotent(name);
  }

  /** The state of one mounted CreateNotebookForm. */
  class NotebookForm {
    const store: NotebookStore
    var name: string
    var selectedIcon: string
    var isSubmitting: bool

    constructor (store: NotebookStore)
      ensures this.store == store
      ensures name == "" && selectedIcon == DefaultIcon && !isSubmitting
    {
      this.store := store;
      name := "";
      selectedIcon := DefaultIcon;
      isSubmitting := false;
    }

    /** An icon button's `onClick`. */
    method SelectIcon(icon: string)
      modifies this`selectedIcon
      ensures selectedIcon == icon
    {
      selectedIcon := icon;
    }

    /** `handleSubmit()`. Unless the trimmed name is empty or a submit is running,
        it creates the notebook with the trimmed name and the chosen icon, clears
        the name, puts the first icon back and reports success (the `created`
        result is the call of `onSuccess`); it ends with no submit running.
        Otherwise nothing changes. */
    method HandleSubmit(id: string, now: int) returns (created: bool)
      modifies this`name, this`selectedIcon, this`isSubmitting, store
      ensures created == old(CanCreate(name, isSubmitting))
      ensures !created ==>
        name == old(name) && selectedIcon == old(selectedIcon) && isSubmitting == old(isSubmitting)
        && store.notebooks == old(store.notebooks)
      ensures created ==>
        store.notebooks == old(store.notebooks) + [CreatedNotebook(old(name), old(selectedIcon), id, now)]
        && name == "" && selectedIcon == DefaultIcon && !isSubmitting
    {
      if !CanCreate(name, isSubmitting) {
        return false;
      }
      Create(Trim(name), id, now);
      created := true;
    }

    /** The accepted submit: mark it running, then the `try` block and its
        `finally`: create, reset the fields, end the submit. */
    method Create(trimmed: string, id: string, now: int)
      modifies this`name, this`selectedIcon, this`isSubmitting, store
      ensures store.notebooks == old(store.notebooks) + [NewNotebook(id, trimmed, Some(old(selectedIcon)), None, now)]
      ensures name == "" && selectedIcon == DefaultIcon && !isSubmitting
    {
      isSubmitting := true;
      var _ := store.CreateNotebook(trimmed, Some(selectedIcon), None, id, now);
      name := "";
      selectedIcon := DefaultIcon;
      isSubmitting := false;
    }
  }

  /** The form starts and resets to the first offered icon. */
  lemma DefaultIconIsOffered()
    ensures NotebookIcons[0] == DefaultIcon
  {
  }
}
