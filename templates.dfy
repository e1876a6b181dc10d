/** The template page (src/pages/Templates.tsx): one dialog that both creates
    and edits message templates, modelled as a small state machine over the
    dialog's three pieces of state. */
module Templates {
  import opened Wrappers
  import opened Domain
  import Text
  import Store

  /** The two fields of the dialog. */
  datatype TemplateForm = TemplateForm(name: string, content: string)

  const EmptyForm := TemplateForm("", "")

  const Required := "Name and content are required."

  /** What `handleSave` does with the current form. */
  datatype SaveAction =
    | Invalid(error: string)
    | Update(id: string, patch: TemplatePatch)
    | Create(template: NewTemplate)

  /** `if (editingId)`: an empty id is falsy and so means "create". */
  predicate Editing(editingId: Option<string>) {
    editingId.Some? && editingId.value != ""
  }

  /** The decision of `handleSave`: a blank field is refused; an edit patches the
      name and content of the edited template; otherwise a new template is made.
      The fields are stored as typed, not trimmed. */
  function SaveRequest(form: TemplateForm, editingId: Option<string>): (r: SaveAction)
    ensures r.Invalid? <==> Text.IsBlank(form.name) || Text.IsBlank(form.content)
    ensures r.Invalid? ==> r.error == Required
    ensures !r.Invalid? ==> (r.Update? <==> Editing(editingId))
    ensures r.Update? ==> r.id == editingId.value
    ensures r.Update? ==> r.patch == TemplatePatch(None, Some(form.name), Some(form.content), None)
    ensures r.Create? ==> r.template == NewTemplate(form.name, form.content)
  {
    Text.TrimEmptyIffBlank(form.name);
    Text.TrimEmptyIffBlank(form.content);
    if Text.Trim(form.name) == [] || Text.Trim(form.content) == [] then Invalid(Required)
    else if Editing(editingId) then Update(editingId.value, TemplatePatch(None, Some(form.name), Some(form.content), None))
    else Create(NewTemplate(form.name, form.content))
  }

  /** Saving an edit that changed nothing leaves the templates as they were, when
      the edited id is unique. */
  lemma EditSaveUnchanged(ts: seq<MessageTemplate>, k: nat)
    requires k < |ts| && ts[k].id != ""
    requires !Text.IsBlank(ts[k].name) && !Text.IsBlank(ts[k].content)
    requires forall j :: 0 <= j < |ts| && ts[j].id == ts[k].id ==> j == k
    ensures var a := SaveRequest(TemplateForm(ts[k].name, ts[k].content), Some(ts[k].id));
      a.Update? && Store.UpdateTemplates(ts, a.id, a.patch) == ts
  {
    var a := SaveRequest(TemplateForm(ts[k].name, ts[k].content), Some(ts[k].id));
    var r := Store.UpdateTemplates(ts, a.id, a.patch);
    forall j | 0 <= j < |ts| ensures r[j] == ts[j] {
      if j == k {
        assert r[j] == PatchTemplate(ts[k], a.patch);
      }
    }
  }

  /** Saving an edit changes the edited template's name and content, and only those. */
  lemma EditSaveChanges(ts: seq<MessageTemplate>, form: TemplateForm, id: string, k: nat)
    requires k < |ts| && ts[k].id == id
    requires SaveRequest(form, Some(id)).Update?
    ensures var a := SaveRequest(form, Some(id));
      Store.UpdateTemplates(ts, a.id, a.patch)[k] ==
      MessageTemplate(ts[k].id, form.name, form.content, ts[k].createdAt)
  {
  }

  class TemplateEditor {
    var isOpen: bool
    var editingId: Option<string>
    var form: TemplateForm

    /** A closed dialog is idle: no edit in progress and an empty form. */
    predicate Idle()
      reads this
    {
      !isOpen ==> editingId.None? && form == EmptyForm
    }

    constructor ()
      ensures !isOpen && editingId.None? && form == EmptyForm
      ensures Idle()
    {
      isOpen := false;
      editingId := None;
      form := EmptyForm;
    }

    /** Typing into the name field. */
    method SetName(name: string)
      modifies this
      ensures form == TemplateForm(name, old(form.content))
      ensures isOpen == old(isOpen) && editingId == old(editingId)
    {
      form := form.(name := name);
    }

    /** Typing into the content field. */
    method SetContent(content: string)
      modifies this
      ensures form == TemplateForm(old(form.name), content)
      ensures isOpen == old(isOpen) && editingId == old(editingId)
    {
      form := form.(content := content);
    }

    /** `handleEdit`: the dialog opens on the template's name and content. */
    method Edit(t: MessageTemplate)
      modifies this
      ensures form == TemplateForm(t.name, t.content) && editingId == Some(t.id) && isOpen
      ensures Idle()
    {
      form := TemplateForm(t.name, t.content);
      editingId := Some(t.id);
      isOpen := true;
    }

    /** `onOpenChange`: closing the dialog discards the form and any edit;
        opening keeps them. */
    method SetOpen(open: bool)
      modifies this
      ensures isOpen == open
      ensures !open ==> editingId.None? && form == EmptyForm
      ensures open ==> editingId == old(editingId) && form == old(form)
      ensures old(Idle()) ==> Idle()
    {
      isOpen := open;
      if !open {
        form := EmptyForm;
        editingId := None;
      }
    }

    /** `handleSave`: a refused form leaves everything as it was; otherwise the
        store gets the update or the new template and the dialog closes idle. */
    method Save(store: Store.AppStore, id: string, now: int) returns (error: Option<string>)
      modifies this, store
      ensures var a := SaveRequest(old(form), old(editingId));
        a.Invalid? ==> (error == Some(Required) && store.templates == old(store.templates)
                        && isOpen == old(isOpen) && editingId == old(editingId) && form == old(form))
      ensures var a := SaveRequest(old(form), old(editingId));
        a.Update? ==> store.templates == Store.UpdateTemplates(old(store.templates), a.id, a.patch)
      ensures var a := SaveRequest(old(form), old(editingId));
        a.Create? ==> store.templates == old(store.templates) + [Store.StampTemplate(a.template, id, now)]
      ensures var a := SaveRequest(old(form), old(editingId));
        !a.Invalid? ==> error.None? && !isOpen && editingId.None? && form == EmptyForm
      ensures old(Idle()) ==> Idle()
      ensures store.contacts == old(store.contacts) && store.campaigns == old(store.campaigns)
      ensures store.logs == old(store.logs) && store.settings == old(store.settings)
    {
      var a := SaveRequest(form, editingId);
      if a.Invalid? {
        return Some(a.error);
      }
      if a.Update? {
        store.UpdateTemplate(a.id, a.patch);
      } else {
        store.AddTemplate(a.template, id, now);
      }
      form := EmptyForm;
      editingId := None;
      isOpen := false;
      error := None;
    }
  }
}
