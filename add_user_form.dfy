/**
 The add-user form: its field validation (a required name and a required,
 well-formed email) and the two event handlers that update the form's state.

 `ValidateForm` is a pure function of the form data; the class `FormState`
 holds the two pieces of component state, `formData` and `errors`, that the
 handlers replace.
 */
module AddUserForm {
  import opened JsValues
  import UsersSlice

  // ---------------------------------------------------------------------
  // Whitespace and trim

  /**
   The characters JavaScript counts as whitespace, both for the regular
   expression class `\s` and for `String.prototype.trim`: the WhiteSpace
   code points (tab, vertical tab, form feed, space, no-break space, the byte
   order mark and the space separators) and the LineTerminator code points.
   */
  predicate IsWhitespace(c: char)
  {
    || c == '\t' || c == '\n' || c == '\U{B}' || c == '\U{C}' || c == '\r'
    || c == ' ' || c == '\U{A0}' || c == '\U{1680}'
    || ('\U{2000}' <= c <= '\U{200A}')
    || c == '\U{2028}' || c == '\U{2029}' || c == '\U{202F}' || c == '\U{205F}'
    || c == '\U{3000}' || c == '\U{FEFF}'
  }

  /** Every character of `s` is whitespace (the empty string included). */
  predicate Blank(s: string)
  {
    forall k :: 0 <= k < |s| ==> IsWhitespace(s[k])
  }

  /** The pattern's delimiters and every visible ASCII character are not whitespace. */
  lemma VisibleAsciiIsNotWhitespace(c: char)
    ensures IsWhitespace(c) ==> c != '@' && c != '.'
    ensures '!' <= c <= '~' ==> !IsWhitespace(c)
  {
  }

  /** Blank means that every character occurring in `s` is whitespace. */
  lemma BlankIffAllWhitespace(s: string)
    ensures Blank(s) <==> forall c :: c in s ==> IsWhitespace(c)
  {
  }

  /** Every character of `s` from index `lo` up to `hi` is whitespace. */
  predicate BlankRange(s: string, lo: int, hi: int)
  {
    forall k :: lo <= k < hi && 0 <= k < |s| ==> IsWhitespace(s[k])
  }

  /** The end of the run of whitespace in `s` that starts at `i`. */
  function SkipLeading(s: string, i: nat): (r: nat)
    requires i <= |s|
    ensures i <= r <= |s| && BlankRange(s, i, r)
    ensures r == |s| || !IsWhitespace(s[r])
    decreases |s| - i
  {
    if i == |s| || !IsWhitespace(s[i]) then i else SkipLeading(s, i + 1)
  }

  /** The start of the run of whitespace in `s` that ends at `hi`, going back no further than `lo`. */
  function SkipTrailing(s: string, lo: nat, hi: nat): (r: nat)
    requires lo <= hi <= |s|
    ensures lo <= r <= hi && BlankRange(s, r, hi)
    ensures r == lo || !IsWhitespace(s[r - 1])
    decreases hi
  {
    if hi == lo || !IsWhitespace(s[hi - 1]) then hi else SkipTrailing(s, lo, hi - 1)
  }

  /** `r` is `s` with a blank prefix of length `i` and a blank suffix cut off. */
  predicate TrimmedAt(s: string, r: string, i: int)
  {
    0 <= i <= |s| - |r| && r == s[i..i + |r|] && BlankRange(s, 0, i) && BlankRange(s, i + |r|, |s|)
  }

  /**
   `s.trim()`: the infix of `s` left once a blank prefix and a blank suffix
   are cut off, and which neither starts nor ends with whitespace.
   */
  function Trim(s: string): (r: string)
    ensures r == "" <==> Blank(s)
    ensures r == "" || (!IsWhitespace(r[0]) && !IsWhitespace(r[|r| - 1]))
    ensures exists i :: TrimmedAt(s, r, i)
  {
    var a := SkipLeading(s, 0);
    var e := SkipTrailing(s, a, |s|);
    assert TrimmedAt(s, s[a..e], a);
    s[a..e]
  }

  // ---------------------------------------------------------------------
  // The email pattern /^[^\s@]+@[^\s@]+\.[^\s@]+$/

  /** A character of the class `[^\s@]`. */
  predicate PatternChar(c: char)
  {
    !IsWhitespace(c) && c != '@'
  }

  /** `s` matches `[^\s@]*`. */
  predicate PatternChars(s: string)
  {
    forall k :: 0 <= k < |s| ==> PatternChar(s[k])
  }

  /** `s` matches `[^\s@]+`. */
  predicate PatternRun(s: string)
  {
    |s| > 0 && PatternChars(s)
  }

  /**
   `/^[^\s@]+@[^\s@]+\.[^\s@]+$/.test(s)`: `s` splits as `L '@' A '.' B`
   with each of `L`, `A` and `B` a non-empty run of `[^\s@]`.
   */
  predicate EmailPattern(s: string)
  {
    exists i, j :: 0 <= i < j < |s| && SplitsAt(s, i, j)
  }

  /** The split of `s` with the `@` at `i` and the `.` at `j` fits the pattern. */
  predicate SplitsAt(s: string, i: int, j: int)
  {
    && 0 <= i < j < |s| && s[i] == '@' && s[j] == '.'
    && PatternRun(s[..i]) && PatternRun(s[i + 1..j]) && PatternRun(s[j + 1..])
  }

  /** A matching string has at least five characters, among them an `@` and a `.`. */
  lemma EmailPatternMinimal(s: string)
    requires EmailPattern(s)
    ensures |s| >= 5 && '@' in s && '.' in s
  {
    var i, j :| 0 <= i < j < |s| && SplitsAt(s, i, j);
    assert s[i] in s && s[j] in s;
  }

  /** The first index of `c` in `s`, or -1. */
  function IndexOf(s: string, c: char): (r: int)
    ensures -1 <= r < |s|
    ensures r == -1 <==> c !in s
    ensures r != -1 ==> s[r] == c && c !in s[..r]
  {
    if s == "" then -1
    else if s[0] == c then 0
    else
      var r := IndexOf(s[1..], c);
      assert r != -1 ==> s[..r + 1] == [s[0]] + s[1..][..r];
      if r == -1 then -1 else r + 1
  }

  /** No character of `s` is whitespace. */
  predicate NoWhitespace(s: string)
  {
    forall k :: 0 <= k < |s| ==> !IsWhitespace(s[k])
  }

  /** `s` has a `.` that is neither its first nor its last character. */
  predicate InnerDot(s: string)
  {
    exists p :: 0 < p < |s| - 1 && s[p] == '.'
  }

  /**
   A single left-to-right reading of the same pattern: no whitespace at all,
   exactly one `@`, not in first place, and a `.` strictly inside what follows it.
   */
  predicate EmailScan(s: string)
  {
    var at := IndexOf(s, '@');
    && at > 0
    && NoWhitespace(s)
    && '@' !in s[at + 1..]
    && InnerDot(s[at + 1..])
  }

  /** A run of `[^\s@]` splits around any `.` in it into two such runs. */
  lemma PatternCharsAroundDot(s: string, j: nat)
    requires j < |s| && s[j] == '.'
    ensures PatternChars(s) <==> PatternChars(s[..j]) && PatternChars(s[j + 1..])
  {
    if PatternChars(s[..j]) && PatternChars(s[j + 1..]) {
      forall k | 0 <= k < |s| ensures PatternChar(s[k]) {
        if k < j {
          assert s[..j][k] == s[k];
        } else if k > j {
          assert s[j + 1..][k - j - 1] == s[k];
        }
      }
    }
  }

  /** `s` is made of `[^\s@]` characters exactly when it has no whitespace and no `@`. */
  lemma PatternCharsIff(s: string)
    ensures PatternChars(s) <==> NoWhitespace(s) && '@' !in s
  {
    if NoWhitespace(s) && '@' !in s {
      forall k | 0 <= k < |s| ensures PatternChar(s[k]) {
        assert s[k] in s;
      }
    }
  }

  /** `s` with a `@` at `i` has no whitespace when neither side of it has any. */
  lemma NoWhitespaceAround(s: string, i: nat)
    requires i < |s| && s[i] == '@'
    ensures NoWhitespace(s) <==> NoWhitespace(s[..i]) && NoWhitespace(s[i + 1..])
  {
    if NoWhitespace(s[..i]) && NoWhitespace(s[i + 1..]) {
      forall k | 0 <= k < |s| ensures !IsWhitespace(s[k]) {
        if k < i {
          assert s[..i][k] == s[k];
        } else if k > i {
          assert s[i + 1..][k - i - 1] == s[k];
        }
      }
    }
  }

  /** A string matching the pattern passes the scan. */
  lemma PatternImpliesScan(s: string)
    requires EmailPattern(s)
    ensures EmailScan(s)
  {
    var i, j :| 0 <= i < j < |s| && SplitsAt(s, i, j);
    var d := s[i + 1..];
    PatternCharsIff(s[..i]);
    assert IndexOf(s, '@') == i;
    assert d[..j - i - 1] == s[i + 1..j] && d[j - i..] == s[j + 1..];
    PatternCharsAroundDot(d, j - i - 1);
    PatternCharsIff(d);
    NoWhitespaceAround(s, i);
    assert 0 < j - i - 1 < |d| - 1 && d[j - i - 1] == '.';
  }

  /** A string passing the scan matches the pattern. */
  lemma ScanImpliesPattern(s: string)
    requires EmailScan(s)
    ensures EmailPattern(s)
  {
    var i := IndexOf(s, '@');
    var d := s[i + 1..];
    var p :| 0 < p < |d| - 1 && d[p] == '.';
    var j := i + 1 + p;
    NoWhitespaceAround(s, i);
    PatternCharsIff(s[..i]);
    PatternCharsIff(d);
    assert d[..p] == s[i + 1..j] && d[p + 1..] == s[j + 1..];
    PatternCharsAroundDot(d, p);
    assert SplitsAt(s, i, j);
  }

  /** The scan decides the pattern, in both directions. */
  lemma EmailPatternIffScan(s: string)
    ensures EmailPattern(s) <==> EmailScan(s)
  {
    if EmailPattern(s) {
      PatternImpliesScan(s);
    }
    if EmailScan(s) {
      ScanImpliesPattern(s);
    }
  }

  /** Whitespace anywhere, leading and trailing whitespace included, fails the pattern. */
  lemma WhitespaceFailsPattern(s: string, k: nat)
    requires k < |s| && IsWhitespace(s[k])
    ensures !EmailPattern(s)
  {
    EmailPatternIffScan(s);
  }

  /** A blank string never matches the pattern. */
  lemma BlankFailsPattern(s: string)
    ensures Blank(s) ==> !EmailPattern(s)
  {
    if s != "" && Blank(s) {
      WhitespaceFailsPattern(s, 0);
    }
  }

  /** Examples: a well-formed address, one with no dot after `@`, one with two `@`. */
  lemma EmailExamples()
    ensures EmailPattern("a@b.c")
    ensures !EmailPattern("x@y")
    ensures !EmailPattern("a@@b.c")
    ensures !EmailPattern(" a@b.c") && !EmailPattern("a@b.c ")
  {
    var s := "a@b.c";
    assert s[..1] == "a" && s[2..3] == "b" && s[4..] == "c";
    assert SplitsAt(s, 1, 3);
    EmailPatternIffScan("x@y");
    EmailPatternIffScan("a@@b.c");
    assert IndexOf("a@@b.c", '@') == 1;
    assert "a@@b.c"[2..][0] == '@';
    WhitespaceFailsPattern(" a@b.c", 0);
    WhitespaceFailsPattern("a@b.c ", 5);
  }

  // ---------------------------------------------------------------------
  // Form data and validation

  /** The three inputs of the form, by their `name` attribute. */
  datatype Field = Name | Email | Company

  datatype FormData = FormData(name: string, email: string, company: string)
  {
    function Get(f: Field): (r: string)
      ensures f == Name ==> r == name
      ensures f == Email ==> r == email
      ensures f == Company ==> r == company
    {
      match f
      case Name => name
      case Email => email
      case Company => company
    }

    /** `{ ...this, [f]: v }`. */
    function With(f: Field, v: string): (r: FormData)
      ensures r.Get(f) == v
      ensures forall g :: g != f ==> r.Get(g) == Get(g)
    {
      match f
      case Name => this.(name := v)
      case Email => this.(email := v)
      case Company => this.(company := v)
    }
  }

  const EmptyForm := FormData("", "", "")

  /** The error messages shown under the inputs, keyed by field. */
  type Errors = map<Field, string>

  const NameRequired := "Name is required"
  const EmailRequired := "Email is required"
  const EmailInvalid := "Please enter a valid email address"

  /**
   `validateForm`: a name error exactly when the name is blank; an email error
   exactly when the email does not match the pattern, saying "required" when
   it is blank and "not valid" otherwise. The two are independent.
   */
  function ValidateForm(data: FormData): (errs: Errors)
    ensures errs.Keys <= {Name, Email}
    ensures Name in errs <==> Blank(data.name)
    ensures Name in errs ==> errs[Name] == NameRequired
    ensures Email in errs <==> !EmailPattern(data.email)
    ensures Email in errs && Blank(data.email) ==> errs[Email] == EmailRequired
    ensures Email in errs && !Blank(data.email) ==> errs[Email] == EmailInvalid
  {
    var errs: Errors := map[];
    var errs := if Trim(data.name) == "" then errs[Name := NameRequired] else errs;
    var errs :=
      if Trim(data.email) == "" then errs[Email := EmailRequired]
      else if !EmailPattern(data.email) then errs[Email := EmailInvalid]
      else errs;
    BlankFailsPattern(data.email);
    errs
  }

  /** The form submits exactly when the name is not blank and the email matches. */
  lemma SubmitAcceptsIff(data: FormData)
    ensures ValidateForm(data) == map[] <==> !Blank(data.name) && EmailPattern(data.email)
  {
    var errs := ValidateForm(data);
    if errs != map[] {
      var f :| f in errs;
    }
  }

  /** A blank name and a blank email are both reported, each with its own message. */
  lemma BothErrorsReported(name: string, email: string, company: string)
    requires Blank(name) && Blank(email)
    ensures ValidateForm(FormData(name, email, company)) == map[Name := NameRequired, Email := EmailRequired]
  {
    var errs := ValidateForm(FormData(name, email, company));
    assert errs.Keys == {Name, Email};
  }

  // ---------------------------------------------------------------------
  // The component state

  class FormState {
    var formData: FormData
    var errors: Errors

    /** The form opens empty and with no errors. */
    constructor ()
      ensures formData == EmptyForm && errors == map[]
    {
      formData := EmptyForm;
      errors := map[];
    }

    /** `handleChange`: store the new value and clear that field's error if one is shown. */
    method HandleChange(field: Field, value: string)
      modifies this
      ensures formData == old(formData).With(field, value)
      ensures field in old(errors) && old(errors)[field] != "" ==> errors == old(errors)[field := ""]
      ensures !(field in old(errors) && old(errors)[field] != "") ==> errors == old(errors)
    {
      formData := formData.With(field, value);
      if field in errors && errors[field] != "" {
        errors := errors[field := ""];
      }
    }

    /**
     `handleSubmit`: validate; on errors store them and keep the data,
     otherwise hand the data to `onAddUser` (the result) and reset the form.
     */
    method HandleSubmit() returns (submitted: Option<FormData>)
      modifies this
      ensures submitted.Some? <==> ValidateForm(old(formData)) == map[]
      ensures submitted.Some? ==> submitted.value == old(formData) && formData == EmptyForm && errors == map[]
      ensures submitted.None? ==> formData == old(formData) && errors == ValidateForm(old(formData))
    {
      var formErrors := ValidateForm(formData);
      assert |formErrors| == 0 ==> formErrors == map[];
      if |formErrors| > 0 {
        errors := formErrors;
        return None;
      }
      submitted := Some(formData);
      formData := EmptyForm;
      errors := map[];
    }
  }

  // ---------------------------------------------------------------------
  // From the form to the store

  /** The submitted form data as the `addUser` payload: three string properties. */
  function AsPayload(data: FormData): (p: map<string, Value>)
    ensures p.Keys == {"name", "email", "company"}
    ensures p["name"] == Str(data.name) && p["email"] == Str(data.email) && p["company"] == Str(data.company)
  {
    map["name" := Str(data.name), "email" := Str(data.email), "company" := Str(data.company)]
  }

  /** The user `addUser` builds from form data carries the typed name, email and company. */
  lemma NewUserFromForm(data: FormData, now: int)
    ensures UsersSlice.NewUser(AsPayload(data), now).id == now
    ensures Get(UsersSlice.NewUser(AsPayload(data), now).fields, "name") == Some(Str(data.name))
    ensures Get(UsersSlice.NewUser(AsPayload(data), now).fields, "email") == Some(Str(data.email))
    ensures UsersSlice.CompanyName(UsersSlice.NewUser(AsPayload(data), now)) == Some(Str(data.company))
  {
    assert "name" !in UsersSlice.FixedKeys && "email" !in UsersSlice.FixedKeys;
  }

  /**
   A user built by `addUser` from data the form accepted has a non-blank
   name and an email matching the pattern.
   */
  lemma SubmittedUserIsValid(data: FormData, now: int)
    requires ValidateForm(data) == map[]
    ensures !Blank(data.name) && EmailPattern(data.email)
    ensures Get(UsersSlice.NewUser(AsPayload(data), now).fields, "name") == Some(Str(data.name))
    ensures Get(UsersSlice.NewUser(AsPayload(data), now).fields, "email") == Some(Str(data.email))
  {
    SubmitAcceptsIff(data);
    NewUserFromForm(data, now);
  }
}
