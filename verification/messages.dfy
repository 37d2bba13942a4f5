/**
 * The message catalogue and the closed error taxonomy.
 *
 * The application throws `new Error(<catalogue text>)` and its handlers decide
 * the HTTP status by comparing `error.message` with catalogue texts and
 * `error.name` with library error names. `ErrorKind` lists every error a
 * service can throw; `NameOf` and `MessageOf` give back the two strings the
 * handlers compare, so the text-based dispatch can be reproduced exactly.
 */
module Messages {
  import opened Wrappers

  // Field-level validation texts.
  const NameRequired := "İsim zorunludur"
  const NameMin := "İsim en az 3 karakter olmalıdır"
  const EmailRequired := "Email zorunludur"
  const EmailInvalid := "Geçerli bir email adresi giriniz"
  const EmailExistsText := "Bu email adresiyle daha önce kayıt olunmuştur"
  const PasswordRequired := "Şifre zorunludur"
  const PasswordMin := "Şifre en az 6 karakter olmalıdır"
  const PasswordSameText := "Eski şifre yeni şifre ile aynı olamaz"
  const TitleRequired := "Başlık zorunludur"
  const TitleMin := "Başlık en az 3 karakter olmalıdır"
  const TitleMax := "Başlık en fazla 100 karakter olmalıdır"
  const ContentRequired := "İçerik zorunludur"
  const ContentMin := "İçerik en az 10 karakter olmalıdır"
  const TagsRequired := "Etiketler zorunludur"
  const TagsMin := "En az bir etiket olmalıdır"
  const AuthorRequired := "Yazar zorunludur"
  const AuthorInvalidFormat := "Geçersiz yazar ID formatı"
  const MinOneField := "En az bir alan güncellenmelidir"

  // Operation texts.
  const UserNotFoundText := "Kullanıcı bulunamadı"
  const UserCreateError := "Kullanıcı oluşturma hatası"
  const UserUpdateError := "Kullanıcı güncelleme hatası"
  const UserGetError := "Kullanıcıları alma hatası"
  const PasswordCompareError := "Şifre karşılaştırma hatası"
  const PostNotFoundText := "Gönderi bulunamadı"
  const PostCreateError := "Gönderi oluşturma hatası"
  const PostUpdateError := "Gönderi güncelleme hatası"
  const PostDeleteError := "Gönderi silme hatası"
  const PostGetError := "Gönderileri alma hatası"
  const NotFoundForTagText := "Bu etikete ait gönderi bulunamadı"
  const ValidationErrorText := "Doğrulama hatası"
  const PostUpdated := "Gönderi başarıyla güncellendi"
  const PostDeleted := "Gönderi başarıyla silindi"

  /**
   * The message of one field-level error: a catalogue text, or the library's
   * own default template for an error code the schema does not override.
   */
  datatype Message = Catalog(text: string) | LibraryDefault(code: string)

  /** One `{ field, message }` entry of an error envelope. */
  datatype FieldError = FieldError(field: string, message: Message)

  /** The entry a field's first failing validator contributes, if any. */
  function OptionalError(field: string, m: Option<string>): (es: seq<FieldError>)
    ensures es == [] <==> m.None?
    ensures m.Some? ==> es == [FieldError(field, Catalog(m.value))]
  {
    if m.Some? then [FieldError(field, Catalog(m.value))] else []
  }

  /** Names of the errors thrown by the database library and its drivers. */
  datatype LibraryName = CastErrorName | BsonErrorName | MongoServerErrorName | GenericErrorName

  /** Everything a service call can throw. */
  datatype ErrorKind =
    | UserNotFound                              // new Error(USER.NOT_FOUND)
    | PostNotFound                              // new Error(POST.NOT_FOUND)
    | NoPostsForTag                             // new Error(POST.NOT_FOUND_FOR_TAG)
    | EmailExists                               // new Error(VALIDATION.USER.EMAIL.EXISTS)
    | PasswordSame                              // new Error(VALIDATION.USER.PASSWORD.SAME)
    | StoreValidation(errors: seq<FieldError>)  // the store's ValidationError, one entry per path
    | Other(name: LibraryName, message: string) // cast, driver and hashing failures

  /** `error.name`. */
  function NameOf(e: ErrorKind): (n: string)
    ensures n == "ValidationError" <==> e.StoreValidation?
    ensures n == "CastError" <==> e.Other? && e.name == CastErrorName
    ensures n == "BSONError" <==> e.Other? && e.name == BsonErrorName
  {
    match e
    case StoreValidation(_) => "ValidationError"
    case Other(CastErrorName, _) => "CastError"
    case Other(BsonErrorName, _) => "BSONError"
    case Other(MongoServerErrorName, _) => "MongoServerError"
    case _ => "Error"
  }

  /** `error.message`. */
  function MessageOf(e: ErrorKind): string {
    match e
    case UserNotFound => UserNotFoundText
    case PostNotFound => PostNotFoundText
    case NoPostsForTag => NotFoundForTagText
    case EmailExists => EmailExistsText
    case PasswordSame => PasswordSameText
    case StoreValidation(_) => "Validation failed"
    case Other(_, m) => m
  }

  /** The texts the handlers compare `error.message` against. */
  predicate IsDispatchText(m: string) {
    m in {UserNotFoundText, PostNotFoundText, NotFoundForTagText, EmailExistsText, PasswordCompareError}
  }

  /**
   * An error whose text cannot be mistaken for a sentinel: everything the
   * services throw by name, and library errors with any other message.
   */
  predicate Distinguishable(e: ErrorKind) {
    e.Other? ==> !IsDispatchText(e.message)
  }

  /**
   * The sentinel texts are pairwise different, and the same-password text is
   * not the password-comparison text the handlers look for.
   */
  lemma SentinelTextsDistinct()
    ensures PasswordSameText != PasswordCompareError
    ensures !IsDispatchText(PasswordSameText)
    ensures |{UserNotFoundText, PostNotFoundText, NotFoundForTagText, EmailExistsText, PasswordSameText, PasswordCompareError}| == 6
    ensures forall e :: Distinguishable(e) && MessageOf(e) == UserNotFoundText ==> e == UserNotFound
    ensures forall e :: Distinguishable(e) && MessageOf(e) == PostNotFoundText ==> e == PostNotFound
    ensures forall e :: Distinguishable(e) && MessageOf(e) == NotFoundForTagText ==> e == NoPostsForTag
    ensures forall e :: Distinguishable(e) && MessageOf(e) == EmailExistsText ==> e == EmailExists
    ensures forall e :: Distinguishable(e) ==> MessageOf(e) != PasswordCompareError
  {
  }
}
