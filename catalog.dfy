/** The course catalog: one record per row of the CSV file, and the text that is
    embedded for each row. */
module Catalog {

  /** One catalog row, with the columns the app reads: "Course Title",
      "Categories", "Rating", "Number of Reviews" and "Course URL". */
  datatype Course = Course(title: string, category: string, rating: real, reviewCount: int, url: string)

  /** The text embedded for a course: its title and its category joined by one space. */
  function SearchText(c: Course): (t: string)
    ensures |t| == |c.title| + 1 + |c.category|
    ensures t[..|c.title|] == c.title
    ensures t[|c.title|] == ' '
    ensures t[|c.title| + 1..] == c.category
  {
    c.title + " " + c.category
  }

  /** The column of search texts, one per row and in row order. */
  function SearchTexts(rows: seq<Course>): seq<string>
  {
    seq(|rows|, i requires 0 <= i < |rows| => SearchText(rows[i]))
  }
}
