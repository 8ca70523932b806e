/**
  The class dashboard's form logic: the question-selection toggle and the
  guards and payload normalisation of the register-student, edit-student
  and create-list forms.
 */
module TurmaDashboard {
  import opened Common

  /** `prev.filter((id) => id !== x)`. */
  function RemoveAll(s: seq<string>, x: string): (r: seq<string>)
    ensures x !in r
    ensures forall y :: y != x ==> (y in r <==> y in s)
    ensures |r| <= |s|
  {
    if s == [] then []
    else (if s[0] == x then [] else [s[0]]) + RemoveAll(s[1..], x)
  }

  /** Removal works piece by piece, so the survivors keep their relative order. */
  lemma {:induction false} RemoveAllAppend(a: seq<string>, b: seq<string>, x: string)
    ensures RemoveAll(a + b, x) == RemoveAll(a, x) + RemoveAll(b, x)
  {
    if a == [] {
      assert a + b == b;
    } else {
      var head := if a[0] == x then [] else [a[0]];
      assert (a + b)[0] == a[0];
      assert (a + b)[1..] == a[1..] + b;
      RemoveAllAppend(a[1..], b, x);
      assert RemoveAll(a + b, x) == head + (RemoveAll(a[1..], x) + RemoveAll(b, x));
      assert head + (RemoveAll(a[1..], x) + RemoveAll(b, x)) == (head + RemoveAll(a[1..], x)) + RemoveAll(b, x);
    }
  }

  /** Removing an absent id changes nothing. */
  lemma {:induction false} RemoveAllAbsent(s: seq<string>, x: string)
    requires x !in s
    ensures RemoveAll(s, x) == s
  {
    if s != [] {
      RemoveAllAbsent(s[1..], x);
    }
  }

  predicate NoDuplicates(s: seq<string>)
  {
    forall i, j :: 0 <= i < j < |s| ==> s[i] != s[j]
  }

  /** Removal keeps a list free of duplicates. */
  lemma {:induction false} RemoveAllNoDuplicates(s: seq<string>, x: string)
    requires NoDuplicates(s)
    ensures NoDuplicates(RemoveAll(s, x))
  {
    if s != [] {
      RemoveAllNoDuplicates(s[1..], x);
      var r := RemoveAll(s[1..], x);
      assert s[0] !in s[1..] by {
        forall k | 0 <= k < |s[1..]|
          ensures s[1..][k] != s[0]
        {
          assert s[1..][k] == s[k + 1];
        }
      }
      assert s[0] !in r;
    }
  }

  /** `handleToggleQuestao`: a selected id is deselected (every occurrence
      removed), an unselected one is appended at the end. */
  function Toggle(prev: seq<string>, id: string): (r: seq<string>)
    ensures id in r <==> id !in prev
    ensures forall y :: y != id ==> (y in r <==> y in prev)
    ensures id !in prev ==> r == prev + [id]
    ensures id in prev ==> r == RemoveAll(prev, id)
  {
    if id in prev then RemoveAll(prev, id) else prev + [id]
  }

  /** Selecting an unselected id and then toggling it again restores the
      original selection. */
  lemma ToggleTwiceRestores(prev: seq<string>, id: string)
    requires id !in prev
    ensures Toggle(Toggle(prev, id), id) == prev
  {
    RemoveAllAppend(prev, [id], id);
    RemoveAllAbsent(prev, id);
    assert RemoveAll([id], id) == [];
    assert prev + [] == prev;
  }

  /** A selection built by toggling never holds an id twice. */
  lemma ToggleNoDuplicates(prev: seq<string>, id: string)
    requires NoDuplicates(prev)
    ensures NoDuplicates(Toggle(prev, id))
  {
    if id in prev {
      RemoveAllNoDuplicates(prev, id);
    }
  }

  /** What a form handler does: nothing, an alert, or a mutation request. */
  datatype FormResult<+P> = Ignored | Alert(message: string) | Mutate(payload: P)

  /** `!turmaId`: the class id is missing or empty. */
  predicate MissingId(turmaId: Option<string>)
  {
    turmaId.None? || turmaId.value == []
  }

  const StudentFieldsMessage: string := "Por favor, preencha nome do aluno e responsável"
  const TitleMessage: string := "Por favor, preencha o título da lista"
  const QuestionsMessage: string := "Por favor, selecione pelo menos uma questão"

  datatype StudentPayload = StudentPayload(nome: string, responsavel: string, dataNascimento: Option<string>)

  datatype NewStudent = NewStudent(student: StudentPayload, turmaId: string)

  /** `handleCadastrarAluno`. */
  function RegisterStudent(turmaId: Option<string>, nome: string, responsavel: string, birth: string): (r: FormResult<NewStudent>)
    ensures MissingId(turmaId) || AllSpace(nome) || AllSpace(responsavel) ==> r == Alert(StudentFieldsMessage)
    ensures r.Mutate? <==> !MissingId(turmaId) && !AllSpace(nome) && !AllSpace(responsavel)
    ensures r.Mutate? ==> r.payload.student == StudentPayload(Trim(nome), Trim(responsavel), NonEmpty(birth))
    ensures r.Mutate? ==> r.payload.turmaId == turmaId.value
  {
    BlankIffAllSpace(nome);
    BlankIffAllSpace(responsavel);
    if MissingId(turmaId) || IsBlank(nome) || IsBlank(responsavel) then Alert(StudentFieldsMessage)
    else Mutate(NewStudent(StudentPayload(Trim(nome), Trim(responsavel), NonEmpty(birth)), turmaId.value))
  }

  datatype StudentRemoval = StudentRemoval(turmaId: string, alunoId: string)

  /** `handleRemoverAluno`: without a class id nothing happens; otherwise the
      removal is sent once the user confirms, and never with an alert. */
  function RemoveStudent(turmaId: Option<string>, alunoId: string, confirmed: bool): (r: FormResult<StudentRemoval>)
    ensures !r.Alert?
    ensures r.Mutate? <==> !MissingId(turmaId) && confirmed
    ensures r.Mutate? ==> r.payload == StudentRemoval(turmaId.value, alunoId)
  {
    if MissingId(turmaId) then Ignored
    else if confirmed then Mutate(StudentRemoval(turmaId.value, alunoId))
    else Ignored
  }

  /** The student being edited, as held by the edit dialog. */
  datatype StudentDraft = StudentDraft(id: string, nome: string, responsavel: string, dataNascimento: string)

  datatype StudentEdit = StudentEdit(id: string, student: StudentPayload)

  /** `handleSalvarEdicao`. */
  function SaveStudentEdit(editing: Option<StudentDraft>): (r: FormResult<StudentEdit>)
    ensures editing.None? ==> r == Ignored
    ensures editing.Some? && (AllSpace(editing.value.nome) || AllSpace(editing.value.responsavel)) ==>
              r == Alert(StudentFieldsMessage)
    ensures r.Mutate? <==> editing.Some? && !AllSpace(editing.value.nome) && !AllSpace(editing.value.responsavel)
    ensures r.Mutate? ==>
              && r.payload.id == editing.value.id
              && r.payload.student == StudentPayload(Trim(editing.value.nome), Trim(editing.value.responsavel),
                                                     NonEmpty(editing.value.dataNascimento))
  {
    match editing
    case None => Ignored
    case Some(e) =>
      BlankIffAllSpace(e.nome);
      BlankIffAllSpace(e.responsavel);
      if IsBlank(e.nome) || IsBlank(e.responsavel) then Alert(StudentFieldsMessage)
      else Mutate(StudentEdit(e.id, StudentPayload(Trim(e.nome), Trim(e.responsavel), NonEmpty(e.dataNascimento))))
  }

  /** The create-list dialog's fields. */
  datatype ListForm = ListForm(titulo: string, descricao: string, dataLiberacao: string, dataLimite: string)

  datatype ListPayload = ListPayload(titulo: string, descricao: Option<string>, turmaId: string, questoesIds: seq<string>,
                                     dataLiberacao: Option<string>, dataLimite: Option<string>)

  /** `handleCriarLista`. */
  function CreateList(turmaId: Option<string>, fields: ListForm, selected: seq<string>): (r: FormResult<ListPayload>)
    ensures r == Alert(TitleMessage) <==> MissingId(turmaId) || AllSpace(fields.titulo)
    ensures r == Alert(QuestionsMessage) <==> !MissingId(turmaId) && !AllSpace(fields.titulo) && selected == []
    ensures selected == [] ==> r.Alert?
    ensures r.Mutate? <==> !MissingId(turmaId) && !AllSpace(fields.titulo) && selected != []
    ensures r.Mutate? ==> r.payload.titulo == Trim(fields.titulo) && r.payload.descricao == NonEmpty(Trim(fields.descricao))
    ensures r.Mutate? ==> r.payload.turmaId == turmaId.value && r.payload.questoesIds == selected
    ensures r.Mutate? ==> r.payload.dataLiberacao == NonEmpty(fields.dataLiberacao)
    ensures r.Mutate? ==> r.payload.dataLimite == NonEmpty(fields.dataLimite)
  {
    BlankIffAllSpace(fields.titulo);
    if MissingId(turmaId) || IsBlank(fields.titulo) then Alert(TitleMessage)
    else if |selected| == 0 then Alert(QuestionsMessage)
    else Mutate(ListPayload(
      Trim(fields.titulo),
      NonEmpty(Trim(fields.descricao)),
      turmaId.value,
      selected,
      NonEmpty(fields.dataLiberacao),
      NonEmpty(fields.dataLimite)))
  }

  /** A field that passed the blank check is sent non-empty, with no
      surrounding whitespace, and trimming it again changes nothing. */
  lemma TrimmedFieldIsClean(s: string)
    requires !IsBlank(s)
    ensures var t := Trim(s);
            && t != [] && !IsSpace(t[0]) && !IsSpace(t[|t| - 1])
            && Trim(t) == t && !IsBlank(t)
  {
    TrimClean(s);
    TrimIdempotent(s);
  }

  /** A list payload with a non-empty title without surrounding whitespace,
      a description that is absent or non-blank and trimmed, and at least
      one question. */
  predicate CleanList(p: ListPayload)
  {
    && p.titulo != [] && !IsSpace(p.titulo[0]) && !IsSpace(p.titulo[|p.titulo| - 1])
    && Trim(p.titulo) == p.titulo
    && (p.descricao.Some? ==> !IsBlank(p.descricao.value) && Trim(p.descricao.value) == p.descricao.value)
    && |p.questoesIds| > 0
  }

  /** Every list the dialog creates is clean. */
  lemma CreatedListIsClean(turmaId: Option<string>, fields: ListForm, selected: seq<string>)
    requires !MissingId(turmaId) && !AllSpace(fields.titulo) && selected != []
    ensures CreateList(turmaId, fields, selected).Mutate?
    ensures CleanList(CreateList(turmaId, fields, selected).payload)
  {
    var p := ListPayload(Trim(fields.titulo), NonEmpty(Trim(fields.descricao)), turmaId.value, selected,
                         NonEmpty(fields.dataLiberacao), NonEmpty(fields.dataLimite));
    assert CreateList(turmaId, fields, selected) == Mutate(p);
    BlankIffAllSpace(fields.titulo);
    TrimmedFieldIsClean(fields.titulo);
    DescriptionIsClean(fields.descricao);
    assert CleanList(p);
  }

  /** The description is sent only when it is non-blank once trimmed. */
  lemma DescriptionIsClean(s: string)
    ensures var d := NonEmpty(Trim(s));
            d.Some? ==> !IsBlank(d.value) && Trim(d.value) == d.value
  {
    TrimIdempotent(s);
  }

  /** Every student the register dialog sends has a trimmed, non-blank
      name and guardian. */
  lemma SentStudentIsClean(turmaId: Option<string>, nome: string, responsavel: string, birth: string)
    requires !MissingId(turmaId) && !AllSpace(nome) && !AllSpace(responsavel)
    ensures RegisterStudent(turmaId, nome, responsavel, birth).Mutate?
    ensures var s := RegisterStudent(turmaId, nome, responsavel, birth).payload.student;
            && !IsBlank(s.nome) && Trim(s.nome) == s.nome
            && !IsBlank(s.responsavel) && Trim(s.responsavel) == s.responsavel
  {
    var p := NewStudent(StudentPayload(Trim(nome), Trim(responsavel), NonEmpty(birth)), turmaId.value);
    BlankIffAllSpace(nome);
    BlankIffAllSpace(responsavel);
    assert RegisterStudent(turmaId, nome, responsavel, birth) == Mutate(p);
    TrimmedFieldIsClean(nome);
    TrimmedFieldIsClean(responsavel);
  }
}
