/** Book records and uploaded files, as the book endpoints handle them. */
module Books {
  import opened Wrappers

  /** The value of a book record: its id, title and stored cover-image name (null when unset). */
  datatype BookData = BookData(id: int, title: string, coverImage: Option<string>)

  /** The short listing form of a book. */
  datatype BookShortDto = BookShortDto(id: int, title: string)

  /** An uploaded multipart file: its original name and its size in bytes. */
  datatype Upload = Upload(name: string, size: nat)

  /** A book request body; the create endpoint sets its cover image in place. */
  class Book {
    var id: int
    var title: string
    var coverImage: Option<string>

    constructor (id: int, title: string)
      ensures this.id == id && this.title == title && coverImage == None
    {
      this.id := id;
      this.title := title;
      coverImage := None;
    }

    /** The book's current fields as a value. */
    function Data(): (d: BookData)
      reads this
    {
      BookData(id, title, coverImage)
    }
  }
}
