/**
 * The meme document as the forecast job sees it: the stored fields of one
 * document of the `memes` collection, and the fetched record that carries
 * the store-assigned id beside them.
 */
module Memes {
  import opened Wrappers

  /**
   * A dictionary entry as `dict.get` sees it: the key is missing, it is
   * present with the value null, or it holds a value.
   */
  datatype Field<+T> = Absent | Null | Present(value: T)

  /**
   * The stored fields of one meme document. Fields written as `Option`
   * only matter as "value or no value": `None` stands for a missing key
   * (and, for `createdUtc`, `title` and `name`, also for null).
   */
  datatype Fields = Fields(
    createdUtc: Option<real>,     // epoch seconds
    upvotes: Option<int>,
    upvoteRatio: Option<real>,
    comments: Option<int>,
    forecastScore: Field<real>,   // last persisted score
    title: Option<string>,
    name: Option<string>,
    lulzScore: Field<real>,       // pass-through
    vibeShift: Field<real>,       // pass-through
    imageUrl: Option<string>,     // pass-through
    link: Option<string>)         // pass-through

  /** A fetched record: the document's fields with its store id attached. */
  datatype Meme = Meme(id: string, fields: Fields)
}
