/** CourseSearchEngine: the catalog, its search texts and their embeddings, built
    once at construction, and the search operation over them. */
module Engine {
  import opened Catalog
  import opened Ranking

  /** The sentence-embedding model, as a function from a text to its vector. */
  type Embedder = string -> seq<int>

  /** The model gives every text a vector of one and the same dimension. */
  ghost predicate UniformDimension(model: Embedder)
  {
    forall t, u :: |model(t)| == |model(u)|
  }

  /** The model's batch encode: one vector per text, in order. */
  function EncodeBatch(model: Embedder, texts: seq<string>): seq<seq<int>>
  {
    seq(|texts|, i requires 0 <= i < |texts| => model(texts[i]))
  }

  /** A result: the course's row, unchanged, with its similarity score added. */
  datatype SearchResult = SearchResult(course: Course, similarityScore: int)

  class CourseSearchEngine {
    /** The catalog rows, in file order. */
    const courses: seq<Course>
    const model: Embedder
    /** The search text of every row. */
    const courseTexts: seq<string>
    /** The embedding of every search text. */
    const courseEmbeddings: seq<seq<int>>

    /** The index pairs row i with its search text and that text's embedding. */
    ghost predicate Valid()
    {
      && UniformDimension(model)
      && |courseTexts| == |courses|
      && |courseEmbeddings| == |courses|
      && (forall i :: 0 <= i < |courses| ==> courseTexts[i] == SearchText(courses[i]))
      && (forall i :: 0 <= i < |courses| ==> courseEmbeddings[i] == model(courseTexts[i]))
    }

    /** Builds the search texts and embeds them all in one batch. */
    constructor (rows: seq<Course>, model: Embedder)
      requires UniformDimension(model)
      ensures Valid()
      ensures courses == rows && this.model == model
      ensures courseTexts == SearchTexts(rows)
      ensures courseEmbeddings == EncodeBatch(model, SearchTexts(rows))
    {
      courses := rows;
      this.model := model;
      courseTexts := SearchTexts(rows);
      courseEmbeddings := EncodeBatch(model, SearchTexts(rows));
    }

    /** The similarity of every row to the query: the embeddings times the query's embedding. */
    function Scores(query: string): (sims: seq<int>)
      requires Valid()
    {
      assert AllOfDimension(courseEmbeddings, |model(query)|) by {
        forall i | 0 <= i < |courseEmbeddings|
          ensures |courseEmbeddings[i]| == |model(query)|
        {
          assert courseEmbeddings[i] == model(courseTexts[i]);
        }
      }
      Similarities(courseEmbeddings, model(query))
    }

    /** The rows selected for the query, best first. */
    function Ranked(query: string, topK: int): seq<int>
      requires Valid()
    {
      TopIndices(Scores(query), topK)
    }

    /** The top_k courses most similar to the query, most similar first, each with
        its similarity score. A top_k of 0 or below is sliced as Python does. */
    method Search(query: string, topK: int := 5) returns (results: seq<SearchResult>)
      requires Valid()
      ensures topK >= 1 ==> |results| == Min(topK, |courses|)
      ensures topK == 0 ==> |results| == |courses|
      ensures topK < 0 ==> |results| == |courses| - Min(-topK, |courses|)
      ensures |results| == |Ranked(query, topK)| && IndicesInRange(Ranked(query, topK), |courses|)
      ensures forall j :: 0 <= j < |results| ==>
                results[j].course == courses[Ranked(query, topK)[j]]
      ensures forall j :: 0 <= j < |results| ==>
                results[j].similarityScore == Dot(courseEmbeddings[Ranked(query, topK)[j]], model(query))
      ensures Distinct(Ranked(query, topK))
      ensures forall a, b :: 0 <= a < b < |results| ==>
                results[a].similarityScore >= results[b].similarityScore
      ensures forall j, i :: 0 <= j < |results| && 0 <= i < |courses| && i !in Ranked(query, topK) ==>
                results[j].similarityScore >= Dot(courseEmbeddings[i], model(query))
    {
      var queryEmbedding := model(query);
      var similarities := Scores(query);
      var topIndices := TopIndices(similarities, topK);
      TopIndicesShape(similarities, topK);
      TopIndicesDistinctDescending(similarities, topK);
      TopIndicesDominate(similarities, topK);
      results := [];
      for j := 0 to |topIndices|
        invariant |results| == j
        invariant forall m :: 0 <= m < j ==>
                    results[m] == SearchResult(courses[topIndices[m]], similarities[topIndices[m]])
      {
        var idx := topIndices[j];
        var course := courses[idx];
        results := results + [SearchResult(course, similarities[idx])];
      }
      assert Ranked(query, topK) == topIndices;
      forall i | 0 <= i < |courses|
        ensures similarities[i] == Dot(courseEmbeddings[i], queryEmbedding)
      {
      }
    }

    /** Search only reads the index, so the same query and top_k give the same results. */
    method SearchIsRepeatable(query: string, topK: int) returns (first: seq<SearchResult>, second: seq<SearchResult>)
      requires Valid()
      ensures first == second
    {
      first := Search(query, topK);
      second := Search(query, topK);
      assert forall j :: 0 <= j < |first| ==> first[j] == second[j];
    }
  }

  /** Two courses, an embedder that scores "Intro to SQL Data" 9 and "Deep Learning AI" 2
      against the query "database basics", and a search for the single best match. */
  method WorkedExample() returns (results: seq<SearchResult>)
    ensures results == [SearchResult(Course("Intro to SQL", "Data", 4.5, 120, "sql"), 9)]
  {
    var intro := Course("Intro to SQL", "Data", 4.5, 120, "sql");
    var deep := Course("Deep Learning", "AI", 4.7, 80, "dl");
    var model: Embedder := t => if t == "Intro to SQL Data" then [9] else if t == "Deep Learning AI" then [2] else [1];
    assert SearchText(intro) == "Intro to SQL Data";
    assert SearchText(deep) == "Deep Learning AI";
    assert model(SearchText(intro)) == [9] && model(SearchText(deep)) == [2];
    assert model("database basics") == [1];
    var engine := new CourseSearchEngine([intro, deep], model);
    assert engine.courseEmbeddings == [[9], [2]];
    assert Dot([9], [1]) == 9 && Dot([2], [1]) == 2;
    assert engine.Scores("database basics") == [9, 2];
    results := engine.Search("database basics", 1);
  }
}
