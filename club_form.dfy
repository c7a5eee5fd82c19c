/**
 * The club form dialog of frontend/src/components/forms/ClubFormDialog.tsx:
 * its hand-written validation (a name of at least two characters after
 * trimming, a description that is not blank once its HTML tags are
 * removed), the payload it hands to the page, and how its state is reset
 * when it opens and after a save.
 */
module ClubForm {
  import opened Common
  import opened Text

  /** The position of the first `c` in `s`. */
  function FirstIndex(s: string, c: char): (i: nat)
    requires c in s
    ensures i < |s| && s[i] == c && c !in s[..i]
  {
    if s[0] == c then 0
    else
      var i := FirstIndex(s[1..], c);
      assert s[..i + 1] == [s[0]] + s[1..][..i];
      i + 1
  }

  /** No `<` is followed, anywhere later, by a `>`: nothing is left for the tag pattern to match. */
  predicate NoTag(s: string) {
    forall i, j :: 0 <= i < j < |s| && s[i] == '<' ==> s[j] != '>'
  }

  /**
   * `s.replace(/<[^>]*>/g, '')`. Scanning left to right, a `<` that has a
   * `>` somewhere after it starts a match that ends at the first such `>`,
   * and the whole match is dropped; any other character is kept.
   */
  function StripTags(s: string): (r: string)
    ensures |r| <= |s|
    ensures forall c :: c in r ==> c in s
    ensures NoTag(r)
    decreases |s|
  {
    if s == [] then []
    else if s[0] == '<' && '>' in s then StripTags(s[FirstIndex(s, '>') + 1..])
    else
      var rest := StripTags(s[1..]);
      assert forall c :: c in rest ==> c in s by {
        forall c | c in rest ensures c in s {
          assert c in s[1..];
        }
      }
      assert s[0] == '<' ==> '>' !in rest;
      [s[0]] + rest
  }

  /** Text without anything the tag pattern matches comes back unchanged. */
  lemma {:induction false} NoTagUnchanged(s: string)
    requires NoTag(s)
    ensures StripTags(s) == s
    decreases |s|
  {
    if s != [] {
      assert !(s[0] == '<' && '>' in s);
      assert NoTag(s[1..]) by {
        forall i, j | 0 <= i < j < |s[1..]| && s[1..][i] == '<' ensures s[1..][j] != '>' {
          assert s[i + 1] == '<';
        }
      }
      NoTagUnchanged(s[1..]);
    }
  }

  /** Plain text, with no `<` at all, is not altered. */
  lemma PlainTextUnchanged(s: string)
    requires '<' !in s
    ensures StripTags(s) == s
  {
    NoTagUnchanged(s);
  }

  /** Stripping twice strips nothing more. */
  lemma StripTagsIdempotent(s: string)
    ensures StripTags(StripTags(s)) == StripTags(s)
  {
    NoTagUnchanged(StripTags(s));
  }

  /**
   * A tag is dropped whole and the text before and after it is kept: the
   * first `>` after the `<` closes the match.
   */
  lemma {:induction false} KeepsTextAroundTag(a: string, t: string, b: string)
    requires '<' !in a && '>' !in t
    ensures StripTags(a + "<" + t + ">" + b) == a + StripTags(b)
    decreases |a|
  {
    var s := a + "<" + t + ">" + b;
    if a == [] {
      assert s == "<" + t + ">" + b;
      TagAtStart(t, b);
    } else {
      assert s[0] == a[0] && s[0] != '<';
      assert s[1..] == a[1..] + "<" + t + ">" + b;
      KeepsTextAroundTag(a[1..], t, b);
      assert a == [a[0]] + a[1..];
    }
  }

  /** A leading tag is dropped up to its first `>`. */
  lemma TagAtStart(t: string, b: string)
    requires '>' !in t
    ensures StripTags("<" + t + ">" + b) == StripTags(b)
  {
    var s := "<" + t + ">" + b;
    assert s[|t| + 1] == '>';
    assert s[..|t| + 1] == "<" + t;
    assert FirstIndex(s, '>') == |t| + 1;
    assert s[|t| + 2..] == b;
  }

  /** Plain text between an opening and a closing tag is what stripping leaves. */
  lemma TaggedTextKept(open: string, text: string, close: string)
    requires '>' !in open && '>' !in close && '<' !in text
    ensures StripTags("<" + open + ">" + text + "<" + close + ">") == text
  {
    var inner := text + "<" + close + ">";
    var empty: string := [];
    assert StripTags(inner) == text by {
      KeepsTextAroundTag(text, close, empty);
      assert text + "<" + close + ">" + empty == inner;
    }
    var head := "<" + open + ">";
    assert StripTags(head + inner) == text by {
      KeepsTextAroundTag(empty, open, inner);
      assert empty + "<" + open + ">" == head;
    }
    Associative(head, (text + "<") + close, ">");
    Associative(head, text + "<", close);
    Associative(head, text, "<");
  }

  lemma Associative(a: string, b: string, c: string)
    ensures a + (b + c) == (a + b) + c
  {
  }

  /** An editor paragraph holding plain text with a non-space character passes the description check. */
  lemma TaggedTextAccepted(open: string, text: string, close: string)
    requires '>' !in open && '>' !in close && '<' !in text && !AllSpace(text)
    ensures !BlankDescription("<" + open + ">" + text + "<" + close + ">")
  {
    TaggedTextKept(open, text, close);
    TrimEmptyIffAllSpace(text);
  }

  /** An editor's empty paragraph is nothing once its tags go. */
  lemma EmptyParagraphStripsToNothing()
    ensures StripTags("<p></p>") == ""
  {
    var s := "<p></p>";
    assert FirstIndex(s, '>') == 2;
    assert s[3..] == "</p>";
    assert FirstIndex("</p>", '>') == 3;
    assert "</p>"[4..] == "";
  }

  const NameMessage := "Tên câu lạc bộ phải có ít nhất 2 ký tự"
  const DescriptionMessage := "Mô tả không được để trống"
  const SaveFailedMessage := "Lưu thất bại, vui lòng thử lại."

  /** `!data.name || data.name.trim().length < 2`. */
  predicate NameTooShort(name: Option<string>) {
    name.None? || |Trim(name.value)| < 2
  }

  /** The description is empty once tags are stripped and the rest trimmed. */
  predicate BlankDescription(description: string) {
    Trim(StripTags(description)) == ""
  }

  /** The message `onSubmitForm` shows before sending anything, if any: the name is checked first. */
  function Problem(name: Option<string>, description: string): (e: Option<string>)
    ensures e == Some(NameMessage) <==> NameTooShort(name)
    ensures e == Some(DescriptionMessage) <==> !NameTooShort(name) && BlankDescription(description)
    ensures e.None? <==> !NameTooShort(name) && !BlankDescription(description)
  {
    if NameTooShort(name) then Some(NameMessage)
    else if BlankDescription(description) then Some(DescriptionMessage)
    else None
  }

  /** A description made only of markup, such as an empty paragraph, is refused. */
  lemma EmptyParagraphRefused(name: string)
    requires |Trim(name)| >= 2
    ensures Problem(Some(name), "<p></p>") == Some(DescriptionMessage)
  {
    EmptyParagraphStripsToNothing();
  }

  /** A plain-text description with a non-space character passes the description check. */
  lemma PlainDescriptionAccepted(description: string)
    requires '<' !in description && !AllSpace(description)
    ensures !BlankDescription(description)
  {
    PlainTextUnchanged(description);
    TrimEmptyIffAllSpace(description);
  }

  datatype ClubType = Student | Faculty

  /** The form's values as react-hook-form holds them; `None` is an undefined field. */
  datatype Fields = Fields(
    name: Option<string>,
    description: Option<string>,
    facebookUrl: Option<string>,
    clubType: Option<ClubType>,
    faculty: Option<string>)

  /** The values a dialog opened without initial data starts from. */
  const Blank := Fields(Some(""), Some(""), Some(""), Some(Student), Some(""))

  /** An image file chosen in the file input. */
  datatype File = File(name: string)

  /** What `onSubmit` receives: the form values and the chosen image, if any. */
  datatype Payload = Payload(fields: Fields, image: Option<File>)

  /** How `await onSubmit(...)` settles: it resolves, or it rejects with the response's message, if any. */
  datatype Settled = Saved | Rejected(message: Option<string>)

  /** How the clubs page's create or update request ends: stored, or refused with the response's message, if any. */
  datatype ServerAnswer = Accepted | Refused(message: Option<string>)

  /**
   * The clubs page's `handleSubmit` as written: it catches every error of
   * the request and only logs it, so the promise the dialog awaits resolves
   * whatever the server answers.
   */
  function PageSettlesAsWritten(answer: ServerAnswer): Settled {
    Saved
  }

  /**
   * The page's handler as its own comment intends ("let user see the
   * error"): a refused request rejects with the response's message, so the
   * dialog's catch can show it.
   */
  function PageSettles(answer: ServerAnswer): (s: Settled)
    ensures s.Saved? <==> answer.Accepted?
    ensures answer.Refused? ==> s == Rejected(answer.message)
  {
    match answer
    case Accepted => Saved
    case Refused(message) => Rejected(message)
  }

  /** `error?.response?.data?.message || 'Lưu thất bại, vui lòng thử lại.'`. */
  function FailureMessage(message: Option<string>): (m: string)
    ensures m != ""
    ensures message.Some? && message.value != "" ==> m == message.value
  {
    if message.Some? && message.value != "" then message.value else SaveFailedMessage
  }

  /**
   * The dialog's state: the `open` prop (changed through `onOpenChange`),
   * the form's default and current values, the rich-text description, the
   * chosen file and the error shown at the top.
   */
  class ClubFormState {
    var open: bool
    var defaults: Fields
    var values: Fields
    var description: string
    var selectedFile: Option<File>
    var serverError: string

    /** First render: the form's defaults are the initial data; the description starts from it. */
    constructor(initial: Option<Fields>)
      ensures !open && selectedFile.None? && serverError == ""
      ensures initial.Some? ==> defaults == initial.value && description == initial.value.description.GetOr("")
      ensures initial.None? ==> defaults == Fields(None, None, None, None, None) && description == ""
      ensures values == defaults
    {
      open := false;
      defaults := if initial.Some? then initial.value else Fields(None, None, None, None, None);
      values := defaults;
      description := if initial.Some? then initial.value.description.GetOr("") else "";
      selectedFile := None;
      serverError := "";
    }

    /**
     * The effect that runs when the dialog opens: clear the error and load
     * the initial data, or the blank values when there is none. `reset`
     * with values also makes them the form's new defaults, which a later
     * bare `reset()` returns to. The chosen file is not part of the reset.
     */
    method Open(initial: Option<Fields>)
      modifies this`open, this`defaults, this`values, this`description, this`serverError
      ensures open && serverError == ""
      ensures defaults == (if initial.Some? then initial.value else Blank)
      ensures initial.Some? ==> description == initial.value.description.GetOr("")
      ensures initial.None? ==> description == ""
      ensures values == defaults.(description := Some(description))
    {
      open := true;
      serverError := "";
      defaults := if initial.Some? then initial.value else Blank;
      description := if initial.Some? then initial.value.description.GetOr("") else "";
      values := defaults.(description := Some(description));
    }

    /** `onOpenChange(false)` from the dialog's close or cancel. */
    method Close()
      modifies this`open
      ensures !open
    {
      open := false;
    }

    /** The rich-text editor's `onChange`; the effect mirrors it into the form values. */
    method EditDescription(html: string)
      modifies this`description, this`values
      ensures description == html && values == old(values).(description := Some(html))
    {
      description := html;
      values := values.(description := Some(html));
    }

    /** The file input's `onChange`: a chosen file replaces the previous one; no choice changes nothing. */
    method ChooseFile(file: Option<File>)
      modifies this`selectedFile
      ensures selectedFile == if file.Some? then file else old(selectedFile)
    {
      if file.Some? {
        selectedFile := file;
      }
    }

    /**
     * `onSubmitForm`: refuse with a message when a check fails, otherwise
     * hand the values, the raw (unstripped) description and the chosen file
     * to the page; on success close and clear, on failure show why and stay
     * open.
     */
    method Submit(settled: Settled) returns (sent: Option<Payload>)
      modifies this`open, this`values, this`description, this`selectedFile, this`serverError
      ensures var problem := Problem(old(values).name, old(description));
        problem.Some? ==>
          sent.None? && serverError == problem.value
          && open == old(open) && values == old(values) && description == old(description)
          && selectedFile == old(selectedFile)
      ensures var problem := Problem(old(values).name, old(description));
        problem.None? ==>
          sent == Some(Payload(old(values).(description := Some(old(description))), old(selectedFile)))
      ensures var problem := Problem(old(values).name, old(description));
        problem.None? && settled.Saved? ==>
          !open && serverError == "" && selectedFile.None? && description == ""
          && values == defaults.(description := Some(""))
      ensures var problem := Problem(old(values).name, old(description));
        problem.None? && settled.Rejected? ==>
          serverError == FailureMessage(settled.message)
          && open == old(open) && values == old(values) && description == old(description)
          && selectedFile == old(selectedFile)
    {
      serverError := "";
      var problem := Problem(values.name, description);
      if problem.Some? {
        serverError := problem.value;
        sent := None;
      } else {
        sent := Some(Payload(values.(description := Some(description)), selectedFile));
        Settle(settled);
      }
    }

    /** What follows `await onSubmit(...)`: the clean-up after a save, or the message after a rejection. */
    method Settle(settled: Settled)
      modifies this`open, this`values, this`description, this`selectedFile, this`serverError
      ensures settled.Saved? ==>
        !open && serverError == old(serverError) && selectedFile.None? && description == ""
        && values == defaults.(description := Some(""))
      ensures settled.Rejected? ==>
        serverError == FailureMessage(settled.message)
        && open == old(open) && values == old(values) && description == old(description)
        && selectedFile == old(selectedFile)
    {
      match settled
      case Saved =>
        open := false;
        selectedFile := None;
        description := "";
        values := defaults.(description := Some(""));
      case Rejected(message) =>
        serverError := FailureMessage(message);
    }
  }

  /**
   * Opening the dialog to create a club and saving leaves the form on the
   * blank values it opened with, not on the first render's defaults.
   */
  method SavedCreateFormIsBlank(form: ClubFormState) returns (sent: Option<Payload>)
    modifies form
    ensures sent.Some? ==> form.values == Blank && form.selectedFile.None? && !form.open
  {
    form.Open(None);
    sent := form.Submit(PageSettles(Accepted));
  }

  /**
   * As written, a save the server refuses still closes the dialog and
   * clears the form, and no message is shown: the page's handler swallows
   * the error before the dialog's catch can see it.
   */
  method RefusedSaveAsWritten(form: ClubFormState, message: Option<string>) returns (sent: Option<Payload>)
    modifies form
    ensures sent.Some? ==>
      !form.open && form.serverError == "" && form.selectedFile.None? && form.description == ""
  {
    sent := form.Submit(PageSettlesAsWritten(Refused(message)));
  }

  /**
   * With a page handler that passes the refusal on, the dialog stays as it
   * was, keeps what was typed and the chosen file, and shows the message.
   */
  method RefusedSaveCorrected(form: ClubFormState, message: Option<string>) returns (sent: Option<Payload>)
    modifies form
    ensures sent.Some? ==>
      && form.open == old(form.open) && form.serverError == FailureMessage(message)
      && form.values == old(form.values) && form.description == old(form.description)
      && form.selectedFile == old(form.selectedFile)
  {
    sent := form.Submit(PageSettles(Refused(message)));
  }

  /**
   * A submission never sends a description the checks would refuse: what is
   * sent has a long-enough name and, once stripped, a non-blank description.
   */
  method SentPassesChecks(form: ClubFormState, answer: ServerAnswer) returns (sent: Option<Payload>)
    modifies form
    ensures sent.Some? ==>
      !NameTooShort(sent.value.fields.name)
      && sent.value.fields.description.Some?
      && !BlankDescription(sent.value.fields.description.value)
  {
    sent := form.Submit(PageSettles(answer));
  }
}
