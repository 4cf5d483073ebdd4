/** The categories repository (src/services/CategoriesRepository.ts): a fixed
    list of five article categories and lookup by slug. The simulated network
    delay is not modelled. */
module CategoriesRepository {
  import opened Seqs
  import opened Types

  /** The categories, in the order the site lists them. */
  const Categories: seq<Category> := [
    Category("1", "JavaScript", "javascript", "Artigos sobre JavaScript, ES6+, Node.js e frameworks",
             "🟨", "#f7df1e", 2),
    Category("2", "CSS", "css", "CSS moderno, Grid, Flexbox e técnicas avançadas",
             "🎨", "#1572b6", 1),
    Category("3", "Python", "python", "Python para desenvolvimento e ciência de dados",
             "🐍", "#3776ab", 1),
    Category("4", "React", "react", "React, Hooks, Context e ecossistema",
             "⚛️", "#61dafb", 1),
    Category("5", "TypeScript", "typescript", "TypeScript para desenvolvimento tipado",
             "🔷", "#3178c6", 1)
  ]

  predicate DistinctSlugs(cs: seq<Category>) {
    forall i, j :: 0 <= i < j < |cs| ==> cs[i].slug != cs[j].slug
  }

  /** `getCategories()`: the same five categories every time, with distinct slugs. */
  function GetCategories(): (r: seq<Category>)
    ensures |r| == 5 && DistinctSlugs(r)
    ensures r[0].slug == "javascript" && r[1].slug == "css" && r[2].slug == "python"
         && r[3].slug == "react" && r[4].slug == "typescript"
  {
    Categories
  }

  /** `getCategoryBySlug(slug)`: the category with exactly that slug (case
      matters), or `None` for the source's `null`. */
  function GetCategoryBySlug(slug: string): (r: Option<Category>)
    ensures r.Some? <==> exists i :: 0 <= i < |GetCategories()| && GetCategories()[i].slug == slug
    ensures r.Some? ==> r.value in GetCategories() && r.value.slug == slug
  {
    Find(GetCategories(), (c: Category) => c.slug == slug)
  }

  /** Each category is found by its own slug. */
  lemma CategoryFoundBySlug(i: int)
    requires 0 <= i < |GetCategories()|
    ensures GetCategoryBySlug(GetCategories()[i].slug) == Some(GetCategories()[i])
  {
    var cs := GetCategories();
    var slug := cs[i].slug;
    FindUnique(cs, (c: Category) => c.slug == slug, i);
  }

  /** The lookup is case-sensitive: the display name is not a slug. */
  lemma SlugIsCaseSensitive()
    ensures GetCategoryBySlug("JavaScript") == None
  {
    var cs := GetCategories();
    assert forall i :: 0 <= i < |cs| ==> cs[i].slug != "JavaScript";
  }
}
