/** One row of the merged title table (IMDb title basics, left-joined with the user's ratings). */
module Catalog {
  import opened Wrappers

  /** An IMDb year cell: the `\N` marker of the dataset, or a year. */
  datatype YearCell = Missing | Year(year: int)

  /**
   * A catalog row. `index` is the pandas index label the row carries through
   * filtering and concatenation; `userRating` is NaN (`None`) for a title the
   * user has not rated, i.e. has not watched.
   */
  datatype Title = Title(
    index: int,
    tconst: string,
    primaryTitle: string,
    originalTitle: string,
    titleType: string,
    startYear: int,
    endYear: YearCell,
    userRating: Option<int>)

  predicate IsUnwatched(t: Title)
  {
    t.userRating.None?
  }

  predicate IsVideogame(t: Title)
  {
    t.titleType == "videoGame"
  }
}
