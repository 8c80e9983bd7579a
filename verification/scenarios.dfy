/** A worked scenario over the store: save one prompt into an empty store,
    find it by a differently-cased query, see its category, then delete it. */
module Scenarios {
  import opened Options
  import opened Sequences
  import opened Text
  import opened Storage

  /** The prompt of the scenario, as the store records it. */
  function Greet(freshId: string, now: string): Prompt {
    Prompt(freshId, "Greet", "Hello {{name}}", "chat", Some(now), now)
  }

  /** The store after saving the scenario's prompt into an empty store. */
  function AfterSave(version: int, freshId: string, now: string): Store {
    SavePrompt(Store([], version), Draft("", "Greet", "Hello {{name}}", "chat"), freshId, now)
  }

  /** Saving into an empty store yields exactly the one new record. */
  lemma GreetIsSaved(version: int, freshId: string, now: string)
    ensures AfterSave(version, freshId, now) == Store([Greet(freshId, now)], version + 1)
  {
  }

  /** The saved prompt is found by the lower-case query "greet". */
  lemma GreetIsFound(version: int, freshId: string, now: string)
    ensures Greet(freshId, now) in SearchPrompts(AfterSave(version, freshId, now), "greet", "")
  {
    var p := Greet(freshId, now);
    GreetIsSaved(version, freshId, now);
    assert Lower("greet") == Lower(p.title);
    assert OccursAt(Lower("greet"), Lower(p.title), 0);
    SearchMembership(AfterSave(version, freshId, now), "greet", "", p);
  }

  /** A store whose records all carry one non-empty category lists exactly that category. */
  lemma SingleCategory(s: Store, c: string)
    requires c != "" && CategoryColumn(s.prompts) == [c]
    ensures GetCategories(s) == [c]
  {
    var cats := GetCategories(s);
    assert c in cats;
    forall i | 0 <= i < |cats|
      ensures cats[i] == c
    {
      assert cats[i] in cats;
    }
    SingleValueDistinct(cats, c);
  }

  /** The saved prompt's category is the only one listed. */
  lemma GreetCategory(version: int, freshId: string, now: string)
    ensures GetCategories(AfterSave(version, freshId, now)) == ["chat"]
  {
    GreetIsSaved(version, freshId, now);
    var saved := Store([Greet(freshId, now)], version + 1);
    assert CategoryColumn(saved.prompts) == ["chat"];
    SingleCategory(saved, "chat");
  }

  /** Deleting the saved prompt empties the store and its category list. */
  lemma GreetIsDeleted(version: int, freshId: string, now: string)
    ensures DeletePrompt(AfterSave(version, freshId, now), freshId) == Store([], version + 2)
    ensures GetCategories(DeletePrompt(AfterSave(version, freshId, now), freshId)) == []
  {
    GreetIsSaved(version, freshId, now);
    var deleted := DeletePrompt(AfterSave(version, freshId, now), freshId);
    if deleted.prompts != [] {
      assert false;
    }
    assert CategoryColumn(deleted.prompts) == [];
  }
}
