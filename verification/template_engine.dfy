/** The template engine of core/template_engine.py: a directory of named
    templates (here a map from name to content), the `{{ name }}` placeholder
    scanner, validation of supplied variables against the placeholders, and the
    SMS segment estimate of a preview. Jinja2 rendering itself is an opaque
    function passed in by the caller. */
module TemplateEngine {
  import opened Wrappers
  import opened Text

  /** The templates directory: template name (file stem) to file content. */
  type TemplateStore = map<string, string>

  /** Jinja2's `render`: template text and variables to the rendered text, or the text of the exception it raised. */
  type Jinja = (string, map<string, string>) -> Result<string, string>

  datatype TemplateError =
    | NotFound(name: string)
    | RenderFailed(detail: string)
  {
    /** The text of the exception, as `str(e)` shows it. */
    function Message(): string {
      match this
      case NotFound(n) => "Template '" + n + "' not found"
      case RenderFailed(d) => "Error rendering template: " + d
    }
  }

  // ---------------------------------------------------------------------------
  // Template directory

  /** `get_template_content`: the raw text of a template, or FileNotFoundError. */
  function GetTemplateContent(store: TemplateStore, name: string): (r: Result<string, TemplateError>)
    ensures r.Ok? <==> name in store
    ensures r.Ok? ==> r.value == store[name]
    ensures r.Err? ==> r.error == NotFound(name)
  {
    if name in store then Ok(store[name]) else Err(NotFound(name))
  }

  /** `create_template`: writes (or overwrites) one template and nothing else. */
  function CreateTemplate(store: TemplateStore, name: string, content: string): (r: TemplateStore)
    ensures GetTemplateContent(r, name) == Ok(content)
    ensures r.Keys == store.Keys + {name}
    ensures forall n | n in store && n != name :: r[n] == store[n]
  {
    store[name := content]
  }

  /** `delete_template`: removes the template if it exists and says whether it did. */
  function DeleteTemplate(store: TemplateStore, name: string): (r: (TemplateStore, bool))
    ensures r.1 <==> name in store
    ensures GetTemplateContent(r.0, name) == Err(NotFound(name))
    ensures r.0.Keys == store.Keys - {name}
    ensures forall n | n in r.0 :: r.0[n] == store[n]
  {
    (store - {name}, name in store)
  }

  /** One entry of `list_templates`: the name and its `.txt` file name. */
  datatype TemplateEntry = TemplateEntry(name: string, file: string)

  /** `list_templates`: one entry per stored template. */
  function ListTemplates(store: TemplateStore): (r: set<TemplateEntry>)
    ensures forall e | e in r :: e.name in store && e.file == e.name + ".txt"
    ensures forall n | n in store :: TemplateEntry(n, n + ".txt") in r
  {
    set n | n in store :: TemplateEntry(n, n + ".txt")
  }

  /** Creating a template that did not exist and then deleting it restores the directory. */
  lemma CreateThenDelete(store: TemplateStore, name: string, content: string)
    requires name !in store
    ensures DeleteTemplate(CreateTemplate(store, name, content), name) == (store, true)
  {
    assert CreateTemplate(store, name, content) - {name} == store;
  }

  // ---------------------------------------------------------------------------
  // Placeholder scanning: re.findall(r'\{\{(\s*[\w\d_]+\s*)\}\}', text)

  /** A placeholder name: one or more word characters. */
  predicate IsName(n: string) {
    |n| > 0 && AllWord(n)
  }

  /** First index at or after `i` that is not whitespace (the greedy `\s*`). */
  function SpaceEnd(s: string, i: nat): (j: nat)
    requires i <= |s|
    ensures i <= j <= |s|
    decreases |s| - i
  {
    if i < |s| && IsSpace(s[i]) then SpaceEnd(s, i + 1) else i
  }

  /** The run `SpaceEnd` skips is whitespace and stops at a non-space character or the end. */
  lemma {:induction false} SpaceEndRun(s: string, i: nat)
    requires i <= |s|
    ensures forall k | i <= k < SpaceEnd(s, i) :: IsSpace(s[k])
    ensures SpaceEnd(s, i) < |s| ==> !IsSpace(s[SpaceEnd(s, i)])
    decreases |s| - i
  {
    if i < |s| && IsSpace(s[i]) {
      SpaceEndRun(s, i + 1);
    }
  }

  /** First index at or after `i` that is not a word character (the greedy `[\w]+`). */
  function WordEnd(s: string, i: nat): (j: nat)
    requires i <= |s|
    ensures i <= j <= |s|
    decreases |s| - i
  {
    if i < |s| && IsWordChar(s[i]) then WordEnd(s, i + 1) else i
  }

  /** The run `WordEnd` skips is word characters and stops at another character or the end. */
  lemma {:induction false} WordEndRun(s: string, i: nat)
    requires i <= |s|
    ensures forall k | i <= k < WordEnd(s, i) :: IsWordChar(s[k])
    ensures WordEnd(s, i) < |s| ==> !IsWordChar(s[WordEnd(s, i)])
    decreases |s| - i
  {
    if i < |s| && IsWordChar(s[i]) {
      WordEndRun(s, i + 1);
    }
  }

  lemma WordIsNotSpace(c: char)
    requires IsWordChar(c)
    ensures !IsSpace(c)
  {
  }

  /** The captured group of a match ending at `e` strips down to its run of word characters. */
  lemma GroupStrips(s: string, i: nat, a: nat, b: nat, e: nat)
    requires i + 2 <= a < b <= e - 2 <= |s|
    requires forall k | i + 2 <= k < a :: IsSpace(s[k])
    requires forall k | a <= k < b :: IsWordChar(s[k])
    requires forall k | b <= k < e - 2 :: IsSpace(s[k])
    ensures Strip(s[i + 2..e - 2]) == s[a..b]
  {
    var w1, n, w2 := s[i + 2..a], s[a..b], s[b..e - 2];
    assert s[i + 2..e - 2] == w1 + n + w2;
    assert AllSpace(w1) by { assert forall k | 0 <= k < |w1| :: w1[k] == s[i + 2 + k]; }
    assert AllSpace(w2) by { assert forall k | 0 <= k < |w2| :: w2[k] == s[b + k]; }
    assert AllWord(n) by { assert forall k | 0 <= k < |n| :: n[k] == s[a + k]; }
    WordIsNotSpace(n[0]);
    WordIsNotSpace(n[|n| - 1]);
    StripSurrounded(w1, n, w2);
  }

  /** A placeholder match: the captured name after `strip()`, and where the match ends. */
  datatype Match = Match(name: string, end: nat)

  /** Whether the pattern matches at index `i`. Whitespace, word characters and
      braces are pairwise distinct, so the greedy runs never need backtracking.
      The name is the captured group `s[i + 2..c]` after `strip()`, which is its
      run of word characters (see `MatchNameIsStrippedGroup`). */
  function MatchAt(s: string, i: nat): (m: Option<Match>)
    ensures m.Some? ==> i + 4 < m.value.end <= |s| && IsName(m.value.name)
    ensures m.Some? ==> s[i] == '{' && s[i + 1] == '{'
    ensures m.Some? ==> s[m.value.end - 2] == '}' && s[m.value.end - 1] == '}'
  {
    if i + 2 <= |s| && s[i] == '{' && s[i + 1] == '{' then
      var a := SpaceEnd(s, i + 2);
      var b := WordEnd(s, a);
      var c := SpaceEnd(s, b);
      if a < b && c + 2 <= |s| && s[c] == '}' && s[c + 1] == '}' then
        assert AllWord(s[a..b]) by {
          WordEndRun(s, a);
          assert forall k | 0 <= k < b - a :: s[a..b][k] == s[a + k];
        }
        Some(Match(s[a..b], c + 2))
      else None
    else None
  }

  /** The three runs of a match: whitespace `s[i + 2..a]`, the name `s[a..b]` and whitespace `s[b..c]`. */
  lemma MatchParts(s: string, i: nat) returns (a: nat, b: nat, c: nat)
    requires MatchAt(s, i).Some?
    ensures i + 2 <= a < b <= c && c + 2 <= |s|
    ensures MatchAt(s, i).value == Match(s[a..b], c + 2)
    ensures s[c] == '}' && s[c + 1] == '}'
    ensures forall k | i + 2 <= k < a :: IsSpace(s[k])
    ensures forall k | a <= k < b :: IsWordChar(s[k])
    ensures forall k | b <= k < c :: IsSpace(s[k])
  {
    a := SpaceEnd(s, i + 2);
    b := WordEnd(s, a);
    c := SpaceEnd(s, b);
    SpaceEndRun(s, i + 2);
    WordEndRun(s, a);
    SpaceEndRun(s, b);
  }

  /** The name of a match is exactly `match.strip()` of the captured group. */
  lemma MatchNameIsStrippedGroup(s: string, i: nat)
    requires MatchAt(s, i).Some?
    ensures MatchAt(s, i).value.name == Strip(s[i + 2..MatchAt(s, i).value.end - 2])
  {
    var a, b, c := MatchParts(s, i);
    GroupStrips(s, i, a, b, MatchAt(s, i).value.end);
  }

  lemma SliceSplit(s: string, i: nat, k: nat, j: nat)
    requires i <= k <= j <= |s|
    ensures s[i..j] == s[i..k] + s[k..j]
  {
  }

  /** The text a match covers is `{{`, whitespace, the name, whitespace, `}}`. */
  lemma MatchAtSound(s: string, i: nat) returns (w1: string, w2: string)
    requires MatchAt(s, i).Some?
    ensures AllSpace(w1) && AllSpace(w2)
    ensures s[i..MatchAt(s, i).value.end] == "{{" + w1 + MatchAt(s, i).value.name + w2 + "}}"
  {
    var a, b, c := MatchParts(s, i);
    w1 := s[i + 2..a];
    w2 := s[b..c];
    assert AllSpace(w1) by { assert forall k | 0 <= k < |w1| :: w1[k] == s[i + 2 + k]; }
    assert AllSpace(w2) by { assert forall k | 0 <= k < |w2| :: w2[k] == s[b + k]; }
    assert s[i..i + 2] == "{{";
    assert s[c..c + 2] == "}}";
    SliceSplit(s, i, c, c + 2);
    SliceSplit(s, i, b, c);
    SliceSplit(s, i, a, b);
    SliceSplit(s, i, i + 2, a);
  }

  /** Every occurrence of `{{`, whitespace, a run of word characters, whitespace, `}}`
      is a match, whose name is that run. */
  lemma MatchAtComplete(s: string, i: nat, a: nat, b: nat, c: nat)
    requires i + 2 <= a < b <= c && c + 2 <= |s|
    requires s[i] == '{' && s[i + 1] == '{' && s[c] == '}' && s[c + 1] == '}'
    requires forall k | i + 2 <= k < a :: IsSpace(s[k])
    requires forall k | a <= k < b :: IsWordChar(s[k])
    requires forall k | b <= k < c :: IsSpace(s[k])
    ensures MatchAt(s, i) == Some(Match(s[a..b], c + 2))
  {
    WordIsNotSpace(s[a]);
    SpaceRun(s, i + 2, a);
    assert !IsWordChar(s[b]) by {
      if b < c { assert IsSpace(s[b]); } else { assert s[b] == '}'; }
    }
    WordRun(s, a, b);
    SpaceRun(s, b, c);
  }

  lemma SpaceRun(s: string, i: nat, j: nat)
    requires i <= j < |s|
    requires forall k | i <= k < j :: IsSpace(s[k])
    requires !IsSpace(s[j])
    ensures SpaceEnd(s, i) == j
    decreases j - i
  {
    if i < j {
      SpaceRun(s, i + 1, j);
    }
  }

  lemma WordRun(s: string, i: nat, j: nat)
    requires i <= j < |s|
    requires forall k | i <= k < j :: IsWordChar(s[k])
    requires !IsWordChar(s[j])
    ensures WordEnd(s, i) == j
    decreases j - i
  {
    if i < j {
      WordRun(s, i + 1, j);
    }
  }

  /** No match starts strictly inside another one, so scanning past a match loses nothing. */
  lemma NoMatchInside(s: string, i: nat, k: nat)
    requires MatchAt(s, i).Some?
    requires i < k < MatchAt(s, i).value.end
    ensures MatchAt(s, k).None?
  {
    var a, b, c := MatchParts(s, i);
    if k + 1 < c {
      assert s[k + 1] != '{';
    }
  }

  /** `re.findall` from index `i`: the stripped group of each non-overlapping match, left to right. */
  function FindAll(s: string, i: nat): (names: seq<string>)
    requires i <= |s|
    ensures forall k | 0 <= k < |names| :: IsName(names[k])
    decreases |s| - i
  {
    if i == |s| then []
    else
      match MatchAt(s, i)
      case Some(m) => [m.name] + FindAll(s, m.end)
      case None => FindAll(s, i + 1)
  }

  /** `extract_variables`: the set of placeholder names in the text. */
  function ExtractVariables(text: string): (vars: set<string>)
    ensures forall n | n in vars :: IsName(n)
  {
    set k | 0 <= k < |FindAll(text, 0)| :: FindAll(text, 0)[k]
  }

  /** Some match at or after index `lo` carries the name `n`. */
  ghost predicate MatchNamedFrom(s: string, lo: nat, n: string) {
    exists k | lo <= k < |s| :: MatchAt(s, k).Some? && MatchAt(s, k).value.name == n
  }

  /** One step of the scan: a match contributes its name and the scan resumes after
      it; otherwise the scan moves on by one character. */
  lemma FindAllStep(s: string, i: nat)
    requires i < |s|
    ensures MatchAt(s, i).Some? ==>
      && |FindAll(s, i)| == 1 + |FindAll(s, MatchAt(s, i).value.end)|
      && FindAll(s, i)[0] == MatchAt(s, i).value.name
      && forall j | 0 < j < |FindAll(s, i)| :: FindAll(s, i)[j] == FindAll(s, MatchAt(s, i).value.end)[j - 1]
    ensures MatchAt(s, i).None? ==> FindAll(s, i) == FindAll(s, i + 1)
  {
  }

  /** Every name the scan from `i` yields is the name of a match at or after `i`. */
  lemma {:induction false} FindAllSound(s: string, i: nat, j: nat) returns (k: nat)
    requires i <= |s| && j < |FindAll(s, i)|
    ensures i <= k < |s| && MatchAt(s, k).Some? && MatchAt(s, k).value.name == FindAll(s, i)[j]
    decreases |s| - i
  {
    FindAllStep(s, i);
    var m := MatchAt(s, i);
    if m.Some? {
      if j == 0 {
        k := i;
      } else {
        k := FindAllSound(s, m.value.end, j - 1);
      }
    } else {
      k := FindAllSound(s, i + 1, j);
    }
  }

  /** The scan from `i` misses no match at or after `i`: the matches it skips over
      lie inside an earlier match, and there are none there. */
  lemma {:induction false} FindAllFinds(s: string, i: nat, k: nat)
    requires i <= k < |s| && MatchAt(s, k).Some?
    ensures MatchAt(s, k).value.name in FindAll(s, i)
    decreases |s| - i
  {
    FindAllStep(s, i);
    var m := MatchAt(s, i);
    if m.Some? {
      if m.value.end <= k {
        FindAllFinds(s, m.value.end, k);
      } else if i < k {
        NoMatchInside(s, i, k);
      }
    } else {
      FindAllFinds(s, i + 1, k);
    }
  }

  /** `extract_variables` returns exactly the names of the placeholders that occur
      anywhere in the text, however often and in whatever order. */
  lemma ExtractVariablesSpec(text: string, n: string)
    ensures n in ExtractVariables(text) <==> MatchNamedFrom(text, 0, n)
  {
    var f := FindAll(text, 0);
    if n in ExtractVariables(text) {
      var j :| 0 <= j < |f| && f[j] == n;
      var k := FindAllSound(text, 0, j);
    }
    if MatchNamedFrom(text, 0, n) {
      var k :| 0 <= k < |text| && MatchAt(text, k).Some? && MatchAt(text, k).value.name == n;
      FindAllFinds(text, 0, k);
      var j :| 0 <= j < |f| && f[j] == n;
    }
  }

  /** A text that is a single placeholder yields exactly its name. */
  lemma {:induction false} SinglePlaceholder(w1: string, n: string, w2: string)
    requires AllSpace(w1) && AllSpace(w2) && IsName(n)
    ensures ExtractVariables("{{" + w1 + n + w2 + "}}") == {n}
  {
    var s := "{{" + w1 + n + w2 + "}}";
    var a, b, c := 2 + |w1|, 2 + |w1| + |n|, 2 + |w1| + |n| + |w2|;
    assert forall k | 2 <= k < a :: s[k] == w1[k - 2];
    assert forall k | a <= k < b :: s[k] == n[k - a];
    assert forall k | b <= k < c :: s[k] == w2[k - b];
    assert s[a..b] == n;
    MatchAtComplete(s, 0, a, b, c);
    forall x | x in ExtractVariables(s) ensures x == n {
      ExtractVariablesSpec(s, x);
      var k :| 0 <= k < |s| && MatchAt(s, k).Some? && MatchAt(s, k).value.name == x;
      if k > 0 {
        NoMatchInside(s, 0, k);
      }
    }
    ExtractVariablesSpec(s, n);
  }

  /** A dotted expression or a filter is not a bare placeholder and contributes nothing. */
  lemma NonBarePlaceholders()
    ensures ExtractVariables("{{ a.b }}") == {}
    ensures ExtractVariables("{{ a|f }}") == {}
  {
    OnlyOpeningAtStartFails("{{ a.b }}");
    OnlyOpeningAtStartFails("{{ a|f }}");
  }

  /** A text of the shape `{{ a?b }}` whose only `{{` is at the start and whose fifth
      character is neither a word character nor whitespace has no placeholders. */
  lemma OnlyOpeningAtStartFails(s: string)
    requires |s| == 9 && s[0] == '{' && s[1] == '{' && s[2] == ' ' && IsWordChar(s[3])
    requires !IsWordChar(s[4]) && !IsSpace(s[4]) && s[4] != '}'
    requires forall k | 1 <= k < 8 :: s[k] != '{' || s[k + 1] != '{'
    ensures ExtractVariables(s) == {}
  {
    forall k | 0 <= k < |s| ensures MatchAt(s, k).None? {
      if k == 0 {
        assert SpaceEnd(s, 2) == 3 by { assert SpaceEnd(s, 3) == 3; }
        assert WordEnd(s, 3) == 4 by { assert WordEnd(s, 4) == 4; }
        assert SpaceEnd(s, 4) == 4;
      }
    }
    forall n | n in ExtractVariables(s) ensures false {
      ExtractVariablesSpec(s, n);
    }
  }

  // ---------------------------------------------------------------------------
  // Validation

  /** The dictionary `validate_template` returns, with its lists as sets. */
  datatype Validation = Validation(valid: bool, missing: set<string>, extra: set<string>, required: set<string>)

  /** The set algebra of `validate_template` on a template's text. */
  function ValidateContent(content: string, provided: map<string, string>): (v: Validation)
    ensures v.required == ExtractVariables(content)
    ensures v.valid <==> v.required <= provided.Keys
    ensures v.missing !! provided.Keys && v.missing + (v.required * provided.Keys) == v.required
    ensures v.extra !! v.required && v.extra + (v.required * provided.Keys) == provided.Keys
  {
    var required := ExtractVariables(content);
    var missing := required - provided.Keys;
    Validation(missing == {}, missing, provided.Keys - required, required)
  }

  /** `validate_template`: FileNotFoundError for an unknown template, else the set algebra on its text. */
  function ValidateTemplate(store: TemplateStore, name: string, provided: map<string, string>): (r: Result<Validation, TemplateError>)
    ensures r.Err? <==> name !in store
    ensures r.Err? ==> r.error == NotFound(name)
    ensures r.Ok? ==> r.value == ValidateContent(store[name], provided)
  {
    match GetTemplateContent(store, name)
    case Ok(content) => Ok(ValidateContent(content, provided))
    case Err(e) => Err(e)
  }

  /** Supplying more variables never makes a valid template invalid. */
  lemma ExtraNeverInvalidates(content: string, p: map<string, string>, q: map<string, string>)
    requires p.Keys <= q.Keys
    requires ValidateContent(content, p).valid
    ensures ValidateContent(content, q).valid
    ensures ValidateContent(content, q).missing == {}
  {
  }

  /** With no variables supplied, a template is valid exactly when it has no placeholders,
      and everything it asks for is reported missing. */
  lemma EmptyVariables(content: string)
    ensures ValidateContent(content, map[]).valid <==> ExtractVariables(content) == {}
    ensures ValidateContent(content, map[]).missing == ExtractVariables(content)
  {
  }

  // ---------------------------------------------------------------------------
  // Rendering and preview

  /** `render`: FileNotFoundError for an unknown template, else Jinja2's result, with its
      exception wrapped as "Error rendering template: ...". */
  function Render(store: TemplateStore, jinja: Jinja, name: string, vars: map<string, string>): (r: Result<string, TemplateError>)
    ensures name !in store ==> r == Err(NotFound(name))
    ensures name in store && jinja(store[name], vars).Ok? ==> r == Ok(jinja(store[name], vars).value)
    ensures name in store && jinja(store[name], vars).Err? ==> r == Err(RenderFailed(jinja(store[name], vars).error))
  {
    if name !in store then Err(NotFound(name))
    else
      match jinja(store[name], vars)
      case Ok(text) => Ok(text)
      case Err(e) => Err(RenderFailed(e))
  }

  const GSM_SEGMENT: nat := 160
  const UNICODE_SEGMENT: nat := 70

  /** Whether some character lies above code point 127. */
  predicate HasUnicode(s: string) {
    exists i | 0 <= i < |s| :: s[i] as int > 127
  }

  /** Characters per SMS segment for this text. */
  function SegmentSize(s: string): (n: nat)
    ensures n > 0
  {
    if HasUnicode(s) then UNICODE_SEGMENT else GSM_SEGMENT
  }

  /** `length // size + (1 if length % size > 0 else 0)`: the number of segments. */
  function Segments(s: string): (n: nat)
    ensures n == 0 <==> |s| == 0
    ensures |s| <= n * SegmentSize(s)
    ensures n > 0 ==> (n - 1) * SegmentSize(s) < |s|
  {
    var size := SegmentSize(s);
    |s| / size + (if |s| % size > 0 then 1 else 0)
  }

  /** The boundary cases of the segment formula. */
  lemma SegmentBoundaries(s: string)
    ensures |s| == 0 ==> Segments(s) == 0
    ensures !HasUnicode(s) && |s| == 160 ==> Segments(s) == 1
    ensures !HasUnicode(s) && |s| == 161 ==> Segments(s) == 2
    ensures HasUnicode(s) && |s| == 70 ==> Segments(s) == 1
    ensures HasUnicode(s) && |s| == 71 ==> Segments(s) == 2
  {
  }

  /** The dictionary `preview_template` returns. */
  datatype Preview = Preview(
    raw: string,
    rendered: string,
    length: nat,
    segments: nat,
    hasUnicode: bool,
    variablesUsed: set<string>,
    variablesProvided: set<string>)

  /** `preview_template`: reads the template, renders it and reports segment and variable metadata. */
  function PreviewTemplate(store: TemplateStore, jinja: Jinja, name: string, vars: map<string, string>): (r: Result<Preview, TemplateError>)
    ensures name !in store ==> r == Err(NotFound(name))
    ensures r.Ok? <==> name in store && jinja(store[name], vars).Ok?
    ensures r.Err? && name in store ==> r.error == RenderFailed(jinja(store[name], vars).error)
    ensures r.Ok? ==> r.value.raw == store[name] && Render(store, jinja, name, vars) == Ok(r.value.rendered)
    ensures r.Ok? ==> r.value.length == |r.value.rendered|
    ensures r.Ok? ==> (r.value.hasUnicode <==> exists i | 0 <= i < |r.value.rendered| :: r.value.rendered[i] as int > 127)
    ensures r.Ok? ==> (r.value.segments * SegmentSize(r.value.rendered) >= r.value.length
                       && (r.value.segments == 0 <==> r.value.length == 0))
    ensures r.Ok? ==> r.value.segments == Segments(r.value.rendered)
    ensures r.Ok? ==> r.value.variablesUsed == ExtractVariables(store[name])
    ensures r.Ok? ==> r.value.variablesProvided == vars.Keys
  {
    match GetTemplateContent(store, name)
    case Err(e) => Err(e)
    case Ok(content) =>
      match Render(store, jinja, name, vars)
      case Err(e) => Err(e)
      case Ok(rendered) =>
        Ok(Preview(content, rendered, |rendered|, Segments(rendered), HasUnicode(rendered),
                   ExtractVariables(content), vars.Keys))
  }
}
