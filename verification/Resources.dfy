/** Optional results: a lookup that may fail. */
module Options {
  datatype Option<+T> = None | Some(value: T)
}

/**
 The serialized resources, reduced to the fields that denormalization reads or writes.
 `details` stands for every other field; it is carried along untouched.
 */
module Resources {
  import opened Options
  import opened SortedList

  datatype Book = Book(foreignID: ID, title: string, fullTitle: string,
                       ratingCount: nat, ratingSum: int, details: int)

  datatype Work = Work(foreignID: ID, title: string, fullTitle: string, shortTitle: string,
                       books: seq<Book>, series: seq<ID>, authors: seq<ID>,
                       ratingCount: nat, ratingSum: int, details: int)

  datatype Series = Series(foreignID: ID, details: int)

  datatype Author = Author(foreignID: ID, works: seq<Work>, series: seq<Series>,
                           ratingCount: nat, averageRating: real, details: int)

  function BookID(b: Book): ID { b.foreignID }

  function WorkID(w: Work): ID { w.foreignID }

  function SeriesID(s: Series): ID { s.foreignID }

  /**
   What the controller asks of the outside world: the edition with a given id (a work that
   wraps it), the complete series with a given id, and upper-casing. `None` is a failed call.
   */
  datatype Upstream = Upstream(book: ID -> Option<Work>, series: ID -> Option<Series>, upper: string -> string)

  /** Authors that are never denormalized. */
  predicate UnknownAuthor(id: ID) {
    id in {22294257, 5158478, 5481957, 4699102, 14144674, 5153555, 4340042}
  }
}
