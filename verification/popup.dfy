/** The popup's two pure rules: the prompt form's submit handler, which
    trims and validates the fields before saving, and the title
    auto-completion, which offers the titles of matching prompts once at
    least two characters are typed. The DOM is reduced to the values these
    rules read and write. */
module Popup {
  import opened Options
  import opened Sequences
  import opened Text
  import opened Storage

  // ---------------------------------------------------------------------
  // Submitting the prompt form

  /** The prompt form as the submit handler reads it. `promptId` is the
      form's data attribute, which is unset until the modal is first opened. */
  datatype Form = Form(promptId: Option<string>, title: string, content: string, category: string)

  /** Whether the submit reached the store. */
  datatype Outcome = Rejected | Saved

  /** The draft the handler builds: the three text fields trimmed and a
      missing id replaced by "". */
  function DraftOf(f: Form): (d: Draft)
    ensures d.id == "" <==> f.promptId == None || f.promptId == Some("")
    ensures f.promptId.Some? ==> d.id == f.promptId.value
    ensures d.title == Trim(f.title) && d.content == Trim(f.content) && d.category == Trim(f.category)
  {
    Draft(f.promptId.GetOr(""), Trim(f.title), Trim(f.content), Trim(f.category))
  }

  /** The submit handler: reject when the trimmed title or the trimmed
      content is empty, without touching the store; otherwise save the
      trimmed draft. */
  function Submit(s: Store, f: Form, freshId: string, now: string): (r: (Store, Outcome))
    ensures r.1 == Rejected <==> AllSpace(f.title) || AllSpace(f.content)
    ensures r.1 == Rejected ==> r.0 == s
    ensures r.1 == Saved ==> r.0 == SavePrompt(s, DraftOf(f), freshId, now)
  {
    var d := DraftOf(f);
    if d.title == "" || d.content == "" then (s, Rejected)
    else (SavePrompt(s, d, freshId, now), Saved)
  }

  /** A valid submit from a form with no prompt id creates a record holding
      the trimmed fields; a blank category is stored as "" and does not
      block the submit. */
  lemma SubmitWithoutIdCreates(s: Store, f: Form, freshId: string, now: string)
    requires f.promptId == None || f.promptId == Some("")
    requires !AllSpace(f.title) && !AllSpace(f.content)
    ensures var r := Submit(s, f, freshId, now);
      && r.1 == Saved
      && r.0.version == s.version + 1
      && |r.0.prompts| == |s.prompts| + 1
      && r.0.prompts[..|s.prompts|] == s.prompts
      && var p := r.0.prompts[|s.prompts|];
         && p.id == freshId
         && p.title == Trim(f.title) && p.content == Trim(f.content) && p.category == Trim(f.category)
         && (AllSpace(f.category) ==> p.category == "")
  {
  }

  /** Whatever the category field holds, it never decides whether a submit
      is accepted. */
  lemma CategoryNeverBlocksSubmit(s: Store, f: Form, category: string, freshId: string, now: string)
    ensures Submit(s, f, freshId, now).1 == Submit(s, f.(category := category), freshId, now).1
  {
  }

  /** An accepted submit stores a title and a content that are non-empty and
      carry no surrounding whitespace. */
  lemma SavedFieldsAreTrimmed(s: Store, f: Form, freshId: string, now: string)
    requires !AllSpace(f.title) && !AllSpace(f.content)
    ensures Submit(s, f, freshId, now).1 == Saved
    ensures var d := DraftOf(f);
      && d.title != "" && !IsSpace(d.title[0]) && !IsSpace(d.title[|d.title| - 1])
      && d.content != "" && !IsSpace(d.content[0]) && !IsSpace(d.content[|d.content| - 1])
  {
  }

  // ---------------------------------------------------------------------
  // Title auto-completion

  /** Auto-completion queries the store only from this many characters on. */
  const MinQueryLength: nat := 2

  /** At most this many suggestions are shown. */
  const MaxSuggestions: nat := 5

  /** The suggestion box: whether it is displayed and the entries it holds. */
  datatype SuggestionBox = SuggestionBox(visible: bool, items: seq<string>)

  /** `suggestions.map(s => s.title)`. */
  function Titles(ps: seq<Prompt>): (ts: seq<string>)
    ensures |ts| == |ps|
    ensures forall i :: 0 <= i < |ps| ==> ts[i] == ps[i].title
  {
    seq(|ps|, i requires 0 <= i < |ps| => ps[i].title)
  }

  function Min(a: nat, b: nat): nat {
    if a <= b then a else b
  }

  /** `showAutoComplete`: a non-empty list replaces the entries with its
      first five and shows the box; an empty list only hides the box. */
  function ShowAutoComplete(box: SuggestionBox, suggestions: seq<string>): (r: SuggestionBox)
    ensures r.visible <==> suggestions != []
    ensures suggestions != [] ==> |r.items| == Min(|suggestions|, MaxSuggestions)
    ensures suggestions != [] ==> forall i :: 0 <= i < |r.items| ==> r.items[i] == suggestions[i]
    ensures suggestions == [] ==> r.items == box.items
  {
    if |suggestions| > 0 then SuggestionBox(true, suggestions[..Min(|suggestions|, MaxSuggestions)])
    else box.(visible := false)
  }

  /** The `input` handler of the title field: below two characters nothing
      happens; from two on, the box shows the titles of the prompts the
      query matches, searched in every category. */
  function OnTitleInput(s: Store, box: SuggestionBox, query: string): (r: SuggestionBox)
    ensures |query| < MinQueryLength ==> r == box
    ensures |query| >= MinQueryLength ==>
      (r.visible <==> exists k :: 0 <= k < |s.prompts| && Selected(s.prompts[k], query, ""))
    ensures |query| >= MinQueryLength && !r.visible ==> r.items == box.items
    ensures |query| >= MinQueryLength && r.visible ==>
      && |r.items| <= MaxSuggestions
      && forall i :: 0 <= i < |r.items| ==>
           exists k :: 0 <= k < |s.prompts| && s.prompts[k].title == r.items[i] && Selected(s.prompts[k], query, "")
  {
    if |query| >= MinQueryLength then
      var found := SearchPrompts(s, query, "");
      SearchEmptyIffNoMatch(s, query, "");
      SubsequenceMembers(found, s.prompts);
      assert forall i :: 0 <= i < |found| ==> found[i] in s.prompts;
      ShowAutoComplete(box, Titles(found))
    else
      box
  }

  /** The shown entries are exactly the first five titles of
      `searchPrompts(query, '')`, in store order. */
  lemma SuggestionsAreFirstFiveMatches(s: Store, box: SuggestionBox, query: string)
    requires |query| >= MinQueryLength
    requires SearchPrompts(s, query, "") != []
    ensures var titles := Titles(SearchPrompts(s, query, ""));
      OnTitleInput(s, box, query).items == titles[..Min(|titles|, MaxSuggestions)]
  {
  }

  /** Clicking a suggestion copies its text into the title field and hides the box. */
  function SelectSuggestion(box: SuggestionBox, k: nat): (r: (string, SuggestionBox))
    requires k < |box.items|
    ensures r.0 == box.items[k]
    ensures !r.1.visible && r.1.items == box.items
  {
    (box.items[k], box.(visible := false))
  }

  /** A click outside the box and the title field hides the box. */
  function Dismiss(box: SuggestionBox): (r: SuggestionBox)
    ensures !r.visible && r.items == box.items
  {
    box.(visible := false)
  }
}
