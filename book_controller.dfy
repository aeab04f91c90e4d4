/**
 * The book endpoints: SUPER/ADMIN-only create, update and delete checked
 * against the principal bound to the security context, a 2 MiB inclusive
 * limit on cover-image uploads (an empty file counts as no file), a
 * not-found check before the role check on update and delete, and the read
 * endpoints' empty-means-404 mapping.
 */
module BookController {
  import opened Wrappers
  import opened Security
  import opened Http
  import opened Books
  import opened Collaborators

  /** 2 * 1024 * 1024 bytes. */
  const MaxFileSize: nat := 2 * 1024 * 1024

  const FileTooLarge: string := "File size exceeds 2MB size limit"
  const CreateDenied: string := "You do not have permission to create book. Only SUPER or ADMIN is allowed."
  const UpdateDenied: string := "You do not have permission to update this book. Only SUPER or ADMIN is allowed."

  /** The roles allowed to write books. */
  predicate CanWrite(r: Role)
  {
    r == SUPER || r == ADMIN
  }

  /** The upload that is actually attached: an empty file is treated as no file. */
  function Attachment(file: Option<Upload>): (a: Option<Upload>)
    ensures a.Some? <==> file.Some? && file.value.size > 0
    ensures a.Some? ==> a == file
  {
    if file.Some? && file.value.size > 0 then file else None
  }

  /** An attached upload larger than the limit. */
  predicate Oversized(file: Option<Upload>)
  {
    file.Some? && file.value.size > MaxFileSize
  }

  /** The limit is inclusive: one byte below and exactly at it are accepted, one byte over is not. */
  lemma SizeLimitBoundary(name: string)
    ensures MaxFileSize == 2097152
    ensures !Oversized(Some(Upload(name, MaxFileSize - 1)))
    ensures !Oversized(Some(Upload(name, MaxFileSize)))
    ensures Oversized(Some(Upload(name, MaxFileSize + 1)))
    ensures !Oversized(None)
  {
  }

  /** The stored cover-image name for an attachment, if there is one. */
  function StoredImage(a: Option<Upload>, store: FileStore): (image: Option<string>)
  {
    if a.Some? then Some(store(a.value)) else None
  }

  /** The response types of the write endpoints (`ResponseEntity<?>`). */
  type BookResponse = Response<Payload<BookData>>

  /** The rejection of a write by the bound principal, with the given permission message; None when it may write. */
  function WriteRejection(bound: Option<Auth>, denied: string): (r: Option<BookResponse>)
    ensures r.None? <==> bound.Some? && CanWrite(bound.value.principal.role)
    ensures bound.None? ==> r == Some(Response(UNAUTHORIZED, None))
    ensures bound.Some? && !CanWrite(bound.value.principal.role) ==> r == Some(Response(FORBIDDEN, Some(Message(denied))))
  {
    if bound.None? then Some(Response(UNAUTHORIZED, None))
    else if !CanWrite(bound.value.principal.role) then Some(Response(FORBIDDEN, Some(Message(denied))))
    else None
  }

  /** The rejection of an oversized upload; None when the upload is within the limit. */
  function SizeRejection(file: Option<Upload>): (r: Option<BookResponse>)
    ensures r.None? <==> !Oversized(file)
    ensures r.Some? ==> r.value == Response(BAD_REQUEST, Some(Message(FileTooLarge)))
  {
    if Oversized(file) then Some(Response(BAD_REQUEST, Some(Message(FileTooLarge)))) else None
  }

  /** One create: the request book's value afterwards, the response and the calls made. */
  datatype CreateRun = CreateRun(book: BookData, response: BookResponse, calls: seq<Call>)

  /** What `createBook(book, file)` does: role check, size check, cover image, service call. */
  function Create(bound: Option<Auth>, book: BookData, file: Option<Upload>, books: BookService, store: FileStore): (r: CreateRun)
  {
    var rejection := WriteRejection(bound, CreateDenied);
    if rejection.Some? then CreateRun(book, rejection.value, [])
    else if SizeRejection(file).Some? then CreateRun(book, SizeRejection(file).value, [])
    else
      var image := StoredImage(Attachment(file), store);
      var saved := if image.Some? then book.(coverImage := image) else book;
      CreateRun(saved, Response(OK, Some(Content(books.createBook(saved)))), [BookServiceCreate(saved)])
  }

  /** Create's rules: a non-writer gets 403 with the create message and the service is never
      called; an oversized upload gets 400 and the service is never called; otherwise the
      service is called once, with the book carrying a cover image exactly when a non-empty
      file came, and its result is the 200 body. */
  lemma CreateRules(bound: Option<Auth>, book: BookData, file: Option<Upload>, books: BookService, store: FileStore)
    ensures var r := Create(bound, book, file, books, store);
      && (bound.Some? && !CanWrite(bound.value.principal.role) ==>
            r.response == Response(FORBIDDEN, Some(Message(CreateDenied))) && r.calls == [] && r.book == book)
      && (bound.Some? && CanWrite(bound.value.principal.role) && Oversized(file) ==>
            r.response == Response(BAD_REQUEST, Some(Message(FileTooLarge))) && r.calls == [] && r.book == book)
      && (r.response.status == OK <==> bound.Some? && CanWrite(bound.value.principal.role) && !Oversized(file))
      && (r.response.status == OK ==>
            && Count(r.calls, BookServiceCreate(r.book)) == 1 && |r.calls| == 1
            && r.response.body == Some(Content(books.createBook(r.book)))
            && r.book.id == book.id && r.book.title == book.title
            && (Attachment(file).Some? ==> r.book.coverImage == Some(store(file.value)))
            && (Attachment(file).None? ==> r.book.coverImage == book.coverImage))
      && (r.response.status != OK ==> forall i :: 0 <= i < |r.calls| ==> !r.calls[i].BookServiceCreate?)
  {
    var r := Create(bound, book, file, books, store);
    if r.response.status == OK {
      assert WriteRejection(bound, CreateDenied).None? && SizeRejection(file).None?;
    }
  }

  /** `createBook(book, file)` on the bound principal of `ctx`, setting the book's cover image in place. */
  method CreateBook(ctx: SecurityContext, book: Book, file: Option<Upload>, books: BookService,
                    store: FileStore, rec: Recorder)
    returns (response: BookResponse)
    modifies book, rec
    ensures var r := Create(ctx.auth, old(book.Data()), file, books, store);
      book.Data() == r.book && response == r.response && rec.log == old(rec.log) + r.calls
  {
    var rejection := WriteRejection(ctx.auth, CreateDenied);
    if rejection.Some? {
      return rejection.value;
    }
    var tooLarge := SizeRejection(file);
    if tooLarge.Some? {
      return tooLarge.value;
    }
    var attached := Attachment(file);
    if attached.Some? {
      book.coverImage := Some(store(attached.value));
    }
    var data := book.Data();
    rec.Record(BookServiceCreate(data));
    response := Response(OK, Some(Content(books.createBook(data))));
  }

  /** A response and the calls made to produce it, for endpoints that change nothing locally. */
  datatype Reply = Reply(response: BookResponse, calls: seq<Call>)

  /** What `updateBook(id, details, file)` does: lookup, role check, size check, service call. */
  function Update(bound: Option<Auth>, id: int, details: BookData, file: Option<Upload>, books: BookService, store: FileStore): (r: Reply)
  {
    var looked := [BookServiceGetById(id)];
    if books.getBookById(id).None? then Reply(Response(NOT_FOUND, None), looked)
    else if WriteRejection(bound, UpdateDenied).Some? then Reply(WriteRejection(bound, UpdateDenied).value, looked)
    else if SizeRejection(file).Some? then Reply(SizeRejection(file).value, looked)
    else
      var image := StoredImage(Attachment(file), store);
      Reply(Response(OK, Some(Content(books.updateBook(id, details, image)))),
            looked + [BookServiceUpdate(id, details, image)])
  }

  /** Update's rules: a missing book is 404 whoever asks; on an existing book a non-writer gets
      403 with the update message; an oversized upload gets 400; in none of these is the update
      called. Otherwise the update is called once, with a null image exactly when no file or
      an empty file came, and its result is the 200 body. */
  lemma UpdateRules(bound: Option<Auth>, id: int, details: BookData, file: Option<Upload>, books: BookService, store: FileStore)
    ensures var r := Update(bound, id, details, file, books, store);
      && r.calls[0] == BookServiceGetById(id) && Count(r.calls, BookServiceGetById(id)) == 1
      && (books.getBookById(id).None? ==> r == Reply(Response(NOT_FOUND, None), [BookServiceGetById(id)]))
      && (books.getBookById(id).Some? && bound.Some? && !CanWrite(bound.value.principal.role) ==>
            r.response == Response(FORBIDDEN, Some(Message(UpdateDenied))))
      && (books.getBookById(id).Some? && bound.Some? && CanWrite(bound.value.principal.role) && Oversized(file) ==>
            r.response == Response(BAD_REQUEST, Some(Message(FileTooLarge))))
      && (r.response.status == OK <==>
            books.getBookById(id).Some? && bound.Some? && CanWrite(bound.value.principal.role) && !Oversized(file))
      && (r.response.status != OK ==> r.calls == [BookServiceGetById(id)])
      && (r.response.status == OK ==>
            exists image: Option<string> ::
              && (image.None? <==> Attachment(file).None?)
              && Count(r.calls, BookServiceUpdate(id, details, image)) == 1
              && r.response.body == Some(Content(books.updateBook(id, details, image))))
  {
    var r := Update(bound, id, details, file, books, store);
    if r.response.status == OK {
      var image := StoredImage(Attachment(file), store);
      assert r.calls == [BookServiceGetById(id), BookServiceUpdate(id, details, image)];
    }
  }

  /** `updateBook(id, details, file)` on the bound principal of `ctx`. */
  method UpdateBook(ctx: SecurityContext, id: int, details: Book, file: Option<Upload>, books: BookService,
                    store: FileStore, rec: Recorder)
    returns (response: BookResponse)
    modifies rec
    ensures var r := Update(ctx.auth, id, details.Data(), file, books, store);
      response == r.response && rec.log == old(rec.log) + r.calls
  {
    rec.Record(BookServiceGetById(id));
    if books.getBookById(id).None? {
      return Response(NOT_FOUND, None);
    }
    var rejection := WriteRejection(ctx.auth, UpdateDenied);
    if rejection.Some? {
      return rejection.value;
    }
    var tooLarge := SizeRejection(file);
    if tooLarge.Some? {
      return tooLarge.value;
    }
    var image := StoredImage(Attachment(file), store);
    var data := details.Data();
    rec.Record(BookServiceUpdate(id, data, image));
    response := Response(OK, Some(Content(books.updateBook(id, data, image))));
  }

  /** What `deleteBook(id)` does: lookup, role check, service call. */
  function Delete(bound: Option<Auth>, id: int, books: BookService): (r: Reply)
  {
    var looked := [BookServiceGetById(id)];
    if books.getBookById(id).None? then Reply(Response(NOT_FOUND, None), looked)
    else if WriteRejection(bound, UpdateDenied).Some? then Reply(WriteRejection(bound, UpdateDenied).value, looked)
    else Reply(Response(NO_CONTENT, None), looked + [BookServiceDeleteById(id)])
  }

  /** Delete's rules: a missing book is 404 whoever asks; a non-writer on an existing book gets
      403 with the update message; the delete is called, once, exactly on the 204 path. */
  lemma DeleteRules(bound: Option<Auth>, id: int, books: BookService)
    ensures var r := Delete(bound, id, books);
      && (books.getBookById(id).None? ==> r.response == Response(NOT_FOUND, None))
      && (books.getBookById(id).Some? && bound.Some? && !CanWrite(bound.value.principal.role) ==>
            r.response == Response(FORBIDDEN, Some(Message(UpdateDenied))))
      && (r.response.status == NO_CONTENT <==> books.getBookById(id).Some? && bound.Some? && CanWrite(bound.value.principal.role))
      && (r.response.status == NO_CONTENT ==> r.response.body.None? && Count(r.calls, BookServiceDeleteById(id)) == 1)
      && (r.response.status != NO_CONTENT ==> forall i :: 0 <= i < |r.calls| ==> !r.calls[i].BookServiceDeleteById?)
  {
  }

  /** `deleteBook(id)` on the bound principal of `ctx`. */
  method DeleteBook(ctx: SecurityContext, id: int, books: BookService, rec: Recorder)
    returns (response: BookResponse)
    modifies rec
    ensures var r := Delete(ctx.auth, id, books);
      response == r.response && rec.log == old(rec.log) + r.calls
  {
    rec.Record(BookServiceGetById(id));
    if books.getBookById(id).None? {
      return Response(NOT_FOUND, None);
    }
    var rejection := WriteRejection(ctx.auth, UpdateDenied);
    if rejection.Some? {
      return rejection.value;
    }
    rec.Record(BookServiceDeleteById(id));
    response := Response(NO_CONTENT, None);
  }

  /** Create and update apply the same upload rule: for a writer (and, on update, an existing
      book), each answers 400 with the size message exactly when the other does. */
  lemma SameUploadRule(a: Auth, book: BookData, id: int, details: BookData, file: Option<Upload>,
                       books: BookService, store: FileStore)
    requires CanWrite(a.principal.role) && books.getBookById(id).Some?
    ensures var c := Create(Some(a), book, file, books, store).response;
      var u := Update(Some(a), id, details, file, books, store).response;
      (c.status == BAD_REQUEST <==> u.status == BAD_REQUEST) &&
      (c.status == BAD_REQUEST ==> c == u == Response(BAD_REQUEST, Some(Message(FileTooLarge))))
  {
  }

  /** `getBookById(id)`: 200 with the book when found, 404 without a body otherwise. */
  function GetBookById(id: int, books: BookService): (r: Response<BookData>)
    ensures r.status == OK <==> books.getBookById(id).Some?
    ensures r.status != OK ==> r.status == NOT_FOUND
    ensures r.body == books.getBookById(id)
  {
    match books.getBookById(id)
    case Some(b) => Response(OK, Some(b))
    case None => Response(NOT_FOUND, None)
  }

  /** A set of listings answered 200 when non-empty and 404 without a body when empty. */
  function ListingResponse(found: set<BookShortDto>): (r: Response<set<BookShortDto>>)
    ensures r.status == OK <==> found != {}
    ensures r.status != OK ==> r == Response(NOT_FOUND, None)
    ensures r.status == OK ==> r.body == Some(found)
  {
    if found == {} then Response(NOT_FOUND, None) else Response(OK, Some(found))
  }

  /** `getBooksByUserId(id)`. */
  function GetBooksByUserId(id: int, books: BookService): (r: Response<set<BookShortDto>>)
    ensures r.status == OK <==> books.getBooksByUserId(id) != {}
    ensures r.status == OK ==> r.body == Some(books.getBooksByUserId(id))
    ensures r.status != OK ==> r == Response(NOT_FOUND, None)
  {
    ListingResponse(books.getBooksByUserId(id))
  }

  /** `getBooksByUserUsernameOrEmail(identifier)`. */
  function GetBooksByUserUsernameOrEmail(identifier: string, books: BookService): (r: Response<set<BookShortDto>>)
    ensures r.status == OK <==> books.getBooksByUserIdentifier(identifier) != {}
    ensures r.status == OK ==> r.body == Some(books.getBooksByUserIdentifier(identifier))
    ensures r.status != OK ==> r == Response(NOT_FOUND, None)
  {
    ListingResponse(books.getBooksByUserIdentifier(identifier))
  }

  /** `getAllBooks()`: the service's response, unchanged. */
  function GetAllBooks(books: BookService): (r: Response<seq<BookData>>)
    ensures r == books.allBooks
  {
    books.allBooks
  }

  /** `getAllBooksShort()`: the service's response, unchanged. */
  function GetAllBooksShort(books: BookService): (r: Response<seq<BookShortDto>>)
    ensures r == books.allBooksShort
  {
    books.allBooksShort
  }
}
