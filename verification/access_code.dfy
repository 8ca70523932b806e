/**
  The student access page: the access code typed by a student is
  normalised as it is typed, checked on submit, and sent upper-cased;
  a failed request is turned into a message by its HTTP status.
 */
module AccessCode {
  import opened Common

  /** Length of every access code. */
  const CodeLength: nat := 6

  /** `valor.replace(/[^A-Za-z0-9]/g, "")`: keep ASCII letters and digits, in order. */
  function KeepAlnum(s: string): (r: string)
    ensures |r| <= |s|
    ensures forall i :: 0 <= i < |r| ==> IsAsciiAlnum(r[i]) && r[i] in s
    ensures forall i :: 0 <= i < |s| && IsAsciiAlnum(s[i]) ==> s[i] in r
    ensures (forall i :: 0 <= i < |s| ==> IsAsciiAlnum(s[i])) ==> r == s
    ensures |s| == 1 ==> (r == s <==> IsAsciiAlnum(s[0])) && (r == [] <==> !IsAsciiAlnum(s[0]))
  {
    if s == [] then []
    else
      var r := (if IsAsciiAlnum(s[0]) then [s[0]] else []) + KeepAlnum(s[1..]);
      assert forall i :: 1 <= i < |s| ==> s[i] == s[1..][i - 1];
      r
  }

  /** The filter works character by character: filtering a concatenation
      concatenates the filtered parts, so the kept letters and digits stay
      in their original order. */
  lemma {:induction false} KeepAlnumAppend(a: string, b: string)
    ensures KeepAlnum(a + b) == KeepAlnum(a) + KeepAlnum(b)
  {
    if a == [] {
      assert a + b == b;
    } else {
      assert (a + b)[0] == a[0];
      assert (a + b)[1..] == a[1..] + b;
      KeepAlnumAppend(a[1..], b);
    }
  }

  /** Characters an access code may contain: `A-Z` and `0-9`. */
  predicate IsCodeChar(c: char)
  {
    IsAsciiUpper(c) || IsAsciiDigit(c)
  }

  /** `formatarCodigo`: strip, upper-case, keep the first six characters. */
  function FormatCode(v: string): (r: string)
    ensures |r| <= CodeLength
    ensures forall i :: 0 <= i < |r| ==> IsCodeChar(r[i])
    ensures |r| <= |KeepAlnum(v)| && r == Upper(KeepAlnum(v))[..|r|]
    ensures |r| == if |KeepAlnum(v)| >= CodeLength then CodeLength else |KeepAlnum(v)|
  {
    var clean := Upper(KeepAlnum(v));
    if |clean| <= CodeLength then clean else clean[..CodeLength]
  }

  /** Formatting an already formatted code changes nothing. */
  lemma FormatIdempotent(v: string)
    ensures FormatCode(FormatCode(v)) == FormatCode(v)
  {
    var c := FormatCode(v);
    assert KeepAlnum(c) == c;
    assert Upper(c) == c;
  }

  /** Upper-casing a formatted code changes nothing, so what is sent is
      what was shown. */
  lemma FormattedIsUpper(v: string)
    ensures Upper(FormatCode(v)) == FormatCode(v)
  {
  }

  const BlankMessage: string := "Digite seu código de acesso"
  const LengthMessage: string := "O código deve ter 6 caracteres"

  datatype Submission = Rejected(message: string) | Send(code: string)

  /** `handleSubmit` up to the request: a blank code and a code of the
      wrong length are refused with a message; otherwise the upper-cased
      code is sent. */
  function Submit(code: string): (r: Submission)
    ensures IsBlank(code) ==> r == Rejected(BlankMessage)
    ensures !IsBlank(code) && |code| != CodeLength ==> r == Rejected(LengthMessage)
    ensures r.Send? <==> !IsBlank(code) && |code| == CodeLength
    ensures r.Send? ==> r.code == Upper(code) && |r.code| == CodeLength
  {
    if IsBlank(code) then Rejected(BlankMessage)
    else if |code| != CodeLength then Rejected(LengthMessage)
    else Send(Upper(code))
  }

  /** The submit button: `disabled={isLoading || codigoAcesso.length !== 6}`. */
  predicate SubmitEnabled(isLoading: bool, code: string)
  {
    !isLoading && |code| == CodeLength
  }

  /** On a code the input field produced, the button is enabled exactly
      when submitting sends a request, and the request carries the code as
      shown. */
  lemma EnabledIffSent(v: string)
    ensures var code := FormatCode(v);
            && (SubmitEnabled(false, code) <==> Submit(code).Send?)
            && (Submit(code).Send? ==> Submit(code).code == code)
  {
    var code := FormatCode(v);
    BlankIffAllSpace(code);
    if |code| == CodeLength {
      assert !IsSpace(code[0]);
    }
  }

  const InvalidCodeMessage: string := "Código de acesso inválido. Verifique se digitou corretamente."
  const DefaultBadRequestMessage: string := "Erro ao acessar a turma"
  const ConnectionMessage: string := "Erro ao conectar. Tente novamente."

  /** The `catch` block: HTTP 404 means an unknown code; 400 shows the
      server's `error` text (or a default when it is missing or empty);
      anything else, including no response at all, is a connection error. */
  function FailureMessage(status: Option<int>, serverError: Option<string>): (m: string)
    ensures status == Some(404) ==> m == InvalidCodeMessage
    ensures status == Some(400) ==> m == (if serverError.Some? && serverError.value != [] then serverError.value
                                          else DefaultBadRequestMessage)
    ensures status != Some(404) && status != Some(400) ==> m == ConnectionMessage
  {
    if status == Some(404) then InvalidCodeMessage
    else if status == Some(400) then
      if serverError.Some? && serverError.value != [] then serverError.value else DefaultBadRequestMessage
    else ConnectionMessage
  }
}
