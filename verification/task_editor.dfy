/** The create/edit task form (`TaskForm.tsx`). */
module TaskEditor {
  import opened Wrappers
  import opened Types
  import opened Text

  datatype Field = Title | Description

  /** The form's data, which is also what `onSubmit` receives. */
  datatype Data = Data(title: string, description: string)

  datatype Errors = Errors(title: Option<string>, description: Option<string>)

  datatype Form = Form(data: Data, errors: Errors)

  const NoErrors: Errors := Errors(None, None)
  const EmptyData: Data := Data("", "")
  const TitleRequired: string := "Título é obrigatório"

  /** The effect on `initialData`: load the task's title and description (`''` when absent), or reset; errors cleared. */
  function Load(initialData: Option<Task>): (r: Form)
    ensures r.errors == NoErrors
    ensures initialData.None? ==> r.data == EmptyData
    ensures initialData.Some? ==> r.data.title == initialData.value.title
    ensures initialData.Some? ==> r.data.description == initialData.value.description.GetOr("")
  {
    match initialData
    case Some(t) => Form(Data(t.title, if t.description.Some? then t.description.value else ""), NoErrors)
    case None => Form(EmptyData, NoErrors)
  }

  /** `validate`: only a blank title is an error; the description never is. */
  function Validate(d: Data): (e: Errors)
    ensures e.description.None?
    ensures e.title == Some(TitleRequired) <==> AllSpace(d.title)
    ensures e.title.None? <==> !AllSpace(d.title)
  {
    TrimEmptyIffAllSpace(d.title);
    Errors(if Trim(d.title) == "" then Some(TitleRequired) else None, None)
  }

  datatype SubmitResult = SubmitResult(form: Form, submitted: Option<Data>)

  /** `handleSubmit`: a valid form is passed on verbatim and, in create mode, reset. */
  function Submit(f: Form, initialData: Option<Task>): (r: SubmitResult)
    ensures r.form.errors == Validate(f.data)
    ensures r.submitted.Some? <==> !AllSpace(f.data.title)
    ensures r.submitted.Some? ==> r.submitted.value == f.data
    ensures r.submitted.None? ==> r.form.data == f.data
    ensures r.submitted.Some? && initialData.None? ==> r.form.data == EmptyData
    ensures r.submitted.Some? && initialData.Some? ==> r.form.data == f.data
  {
    var errors := Validate(f.data);
    if errors == NoErrors then
      var data := if initialData.None? then EmptyData else f.data;
      SubmitResult(Form(data, errors), Some(f.data))
    else
      SubmitResult(Form(f.data, errors), None)
  }

  /** `handleInputChange`: store the value and clear that field's truthy error only. */
  function Edit(f: Form, field: Field, value: string): (r: Form)
    ensures field == Title ==> r.data == f.data.(title := value)
    ensures field == Description ==> r.data == f.data.(description := value)
    ensures field == Title ==> !Truthy(r.errors.title) && r.errors.description == f.errors.description
    ensures field == Description ==> !Truthy(r.errors.description) && r.errors.title == f.errors.title
  {
    match field
    case Title =>
      Form(f.data.(title := value), if Truthy(f.errors.title) then f.errors.(title := None) else f.errors)
    case Description =>
      Form(f.data.(description := value), if Truthy(f.errors.description) then f.errors.(description := None) else f.errors)
  }

  /** A form freshly loaded for editing submits the task's own title and description when the title is not blank. */
  lemma LoadedTaskSubmitsItself(t: Task)
    requires !AllSpace(t.title)
    ensures Submit(Load(Some(t)), Some(t)).submitted == Some(Data(t.title, t.description.GetOr("")))
  {
  }

  /** In create mode, submitting and then submitting the reset form is refused: the title is empty. */
  lemma CreateModeResetBlocksResubmit(f: Form)
    ensures Submit(Submit(f, None).form, None).submitted.None? || Submit(f, None).submitted.None?
  {
  }
}
