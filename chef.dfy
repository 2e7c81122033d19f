/** Chef run lists as both the provisioner and the role converter build them:
    each recipe `r` becomes the entry `"recipe[r]"`. */
module Chef {

  /** `"recipe[#{r}]"`. */
  function RunListItem(r: string): string {
    "recipe[" + r + "]"
  }

  /** `recipes.map { |r| "recipe[#{r}]" }`. */
  function RunList(recipes: seq<string>): (items: seq<string>)
    ensures |items| == |recipes|
    ensures forall i | 0 <= i < |recipes| :: items[i] == RunListItem(recipes[i])
  {
    seq(|recipes|, i requires 0 <= i < |recipes| => RunListItem(recipes[i]))
  }

  /** The recipe an entry names, when it has the `recipe[...]` shape. */
  function RecipeOf(item: string): (r: string)
  {
    if |item| >= 8 && item[..7] == "recipe[" && item[|item| - 1] == ']' then item[7..|item| - 1]
    else item
  }

  /** Reading the recipes back from the run list gives the recipe list:
      nothing is dropped, added or reordered. */
  lemma RunListRoundTrip(recipes: seq<string>)
    ensures |RunList(recipes)| == |recipes|
    ensures forall i | 0 <= i < |recipes| :: RecipeOf(RunList(recipes)[i]) == recipes[i]
  {
    forall i | 0 <= i < |recipes|
      ensures RecipeOf(RunList(recipes)[i]) == recipes[i]
    {
      var item := RunListItem(recipes[i]);
      assert item[..7] == "recipe[" && item[7..|item| - 1] == recipes[i];
    }
  }

  /** Different recipe lists give different run lists. */
  lemma RunListInjective(a: seq<string>, b: seq<string>)
    requires RunList(a) == RunList(b)
    ensures a == b
  {
    RunListRoundTrip(a);
    RunListRoundTrip(b);
  }
}
