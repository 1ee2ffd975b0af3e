/**
 * The catalogue entry, its rating with the "no rating" sentinel, and the
 * selection of one entry from a list (engine/title.go).
 */
module Title {

  /** A 32-bit signed integer, the type of a rating count. */
  newtype Int32 = x: int | -0x8000_0000 <= x < 0x8000_0000

  /**
   * An average rating as a 64-bit float: either a number or the not-a-number
   * value that the program reserves as the "no rating" sentinel.
   */
  datatype Rating = Unrated | Rated(value: real)

  /**
   * Float comparison `a >= b`: false whenever either side is not a number,
   * and the numeric comparison otherwise.
   */
  function AtLeast(a: Rating, b: Rating): (r: bool)
    ensures r ==> a.Rated? && b.Rated?
    ensures a.Rated? && b.Rated? ==> (r <==> a.value >= b.value)
  {
    a.Rated? && b.Rated? && a.value >= b.value
  }

  /** One catalogued work, keyed by its opaque identifier `tconst`. */
  datatype Title = Title(
    tconst: string,
    titleType: string,
    primaryTitle: string,
    runtimeMinutes: string,
    genres: string,
    rating: Rating,
    ratingCount: Int32)

  /**
   * Picks `list[k]`, where `k` stands for the value of the random draw in
   * [0, |list|). The draw panics on an empty list, hence the precondition.
   */
  function RandTitle(list: seq<Title>, k: nat): (t: Title)
    requires k < |list|
    ensures t in list
  {
    list[k]
  }

  /** An entry without a rating is never at least any threshold. */
  lemma UnratedComparesFalse(a: Rating, threshold: Rating)
    ensures !AtLeast(Unrated, threshold) && !AtLeast(a, Unrated)
  {
  }

  /** Every element of the list is the pick for some value of the draw. */
  lemma EveryTitleReachable(list: seq<Title>, i: nat)
    requires i < |list|
    ensures exists k: nat :: k < |list| && RandTitle(list, k) == list[i]
  {
    assert RandTitle(list, i) == list[i];
  }
}
