/**
 * The domain record of one recipe, as shown by the list and detail screens.
 */
module Recipes {
  /** `Recipe`: seven string fields, all required (absent links are `""`). */
  datatype Recipe = Recipe(
    id: string,
    cuisine: string,
    name: string,
    largePhotoUrl: string,
    smallPhotoUrl: string,
    siteUrl: string,
    videoUrl: string
  )

  /** The hand-written `==`: field-by-field comparison of all seven fields. */
  function Equals(lhs: Recipe, rhs: Recipe): (r: bool)
    ensures r <==> lhs == rhs
  {
    lhs.id == rhs.id &&
    lhs.cuisine == rhs.cuisine &&
    lhs.name == rhs.name &&
    lhs.largePhotoUrl == rhs.largePhotoUrl &&
    lhs.smallPhotoUrl == rhs.smallPhotoUrl &&
    lhs.siteUrl == rhs.siteUrl &&
    lhs.videoUrl == rhs.videoUrl
  }

  lemma EqualsReflexive(a: Recipe)
    ensures Equals(a, a)
  {
  }

  lemma EqualsSymmetric(a: Recipe, b: Recipe)
    ensures Equals(a, b) == Equals(b, a)
  {
  }

  lemma EqualsTransitive(a: Recipe, b: Recipe, c: Recipe)
    requires Equals(a, b) && Equals(b, c)
    ensures Equals(a, c)
  {
  }

  /** Sharing an `id` is not enough: any other differing field makes two recipes unequal. */
  lemma SameIdIsNotEnough(a: Recipe, b: Recipe)
    requires a.id == b.id
    requires a.cuisine != b.cuisine || a.name != b.name || a.largePhotoUrl != b.largePhotoUrl
          || a.smallPhotoUrl != b.smallPhotoUrl || a.siteUrl != b.siteUrl || a.videoUrl != b.videoUrl
    ensures !Equals(a, b)
  {
  }
}
