/**
 The FM-synth component's editor: the same guard and reset as the voxel
 editor, a menu holding one label, and an event handler that reacts to
 nothing yet.
 */
module FmSynthComponents {
  import opened Base
  import opened MenuGfx
  import opened MenuForms

  /** `ActivateCallbacks` of the synth editor. */
  datatype SynthCallback = SynthCallback(eventId: EventId, x: nat, y: nat)

  /** `FmSynthEditor`. */
  datatype FmSynthEditor = FmSynthEditor(
    editing: bool,
    createdMenu: bool,
    zIndex: nat,
    zIndexCallback: Option<EventId>,
    toggleCallbacks: seq<SynthCallback>)

  /** `FmSynthComponent`. */
  datatype FmSynthComponent = FmSynthComponent(editor: FmSynthEditor)

  /** `FmSynthEditor::new`: not editing, no menu, slice 0, no callbacks. */
  function NewFmSynthEditor(): (e: FmSynthEditor)
    ensures !e.editing && !e.createdMenu && e.zIndex == 0 && e.zIndexCallback.None? && e.toggleCallbacks == []
  {
    FmSynthEditor(false, false, 0, None, [])
  }

  /** `FmSynthEditor::reset`: every field back to its `new` value. */
  function ResetFmSynthEditor(e: FmSynthEditor): (r: FmSynthEditor)
    ensures r == NewFmSynthEditor()
  {
    FmSynthEditor(false, false, 0, None, [])
  }

  /** `FmSynthComponent::new`. */
  function NewFmSynthComponent(): (c: FmSynthComponent)
    ensures !IsEditing(c) && !c.editor.createdMenu
  {
    FmSynthComponent(NewFmSynthEditor())
  }

  /** `is_editing`. */
  predicate IsEditing(c: FmSynthComponent)
  {
    c.editor.editing
  }

  /** `handle_events`: the callbacks are looked at, but nothing is ever returned or changed. */
  function HandleEvents(c: FmSynthComponent, events: seq<Binding>, frame: nat): (r: (FmSynthComponent, seq<Binding>))
    ensures r.0 == c && |r.1| == 0
  {
    (c, [])
  }

  /** The text of the synth editor's one label. */
  const LABEL_TEXT: string := "Some String"

  /**
   `init_editor`: fails if a menu was already created; otherwise marks it
   created and returns a plain form holding one label, appended to its
   children directly (without `add_child`'s placement).
   */
  function InitEditor(c: FmSynthComponent): (r: Result<(FmSynthComponent, Form)>)
    ensures c.editor.createdMenu <==> r.Fail?
    ensures r.Fail? ==> r.fault == MenuAlreadyCreated
    ensures r.Ok? ==> var (c', menu) := r.value;
      && c' == FmSynthComponent(c.editor.(createdMenu := true))
      && menu.kind == PlainForm && |menu.children| == 1
      && menu.children[0].kind == Label(LABEL_TEXT, Some(NewPalette().quaternary))
      && menu.children[0].position == SQUARE
  {
    if c.editor.createdMenu then Fail(MenuAlreadyCreated)
    else
      var p := NewPalette();
      var menu := NewPlainForm(p);
      Ok((FmSynthComponent(c.editor.(createdMenu := true)), menu.(children := menu.children + [NewLabel(p, LABEL_TEXT)])))
  }

  /** `close_editor`: resets the editor, which leaves the component as a new one. */
  function CloseEditor(c: FmSynthComponent): (r: FmSynthComponent)
    ensures r == NewFmSynthComponent() && !IsEditing(r) && !r.editor.createdMenu
  {
    FmSynthComponent(ResetFmSynthEditor(c.editor))
  }

  /** A menu is created once: a second `init_editor` fails until the editor is closed, after which it succeeds again. */
  lemma InitEditorOnceUntilClosed(c: FmSynthComponent)
    ensures InitEditor(c).Ok? ==> InitEditor(InitEditor(c).value.0) == Fail(MenuAlreadyCreated)
    ensures InitEditor(CloseEditor(c)).Ok?
  {
  }
}
