/** How the product service turns a database error into the exception the
    client sees (`handleExceptions`), and the regular expression
    `/\(.*?\)=\((.*?)\)/` it uses to pull the duplicated value out of a
    PostgreSQL unique-violation detail such as
    `Key (slug)=(t-shirt) already exists.`. */
module ProductsErrors {
  import opened Wrappers
  import opened AsciiText

  /** SQLSTATE unique_violation. */
  const UniqueViolation: string := "23505"
  /** SQLSTATE not_null_violation. */
  const NotNullViolation: string := "23502"

  /** The fields of a thrown error that the handler reads; any of them may
      be undefined. */
  datatype DbError = DbError(code: Option<string>, detail: Option<string>, column: Option<string>)

  /** What a BadRequestException is about. The service logs this name;
      the exception itself carries no message of its own. */
  datatype Reason =
    | DuplicateValue(value: string)
    | MissingParameter(name: string)
    | NoProductWithId(id: string)

  datatype HttpException =
    | BadRequest(reason: Reason)
    | NotFound(term: string)
    | InternalServerError

  /** What a service call throws: one of Nest's HTTP exceptions, the
      TypeError of reading a property of `undefined`, or a database error
      that no catch block handles. */
  datatype Thrown = Http(exception: HttpException) | TypeError | Uncaught(error: DbError)

  // ----- the regular expression /\(.*?\)=\((.*?)\)/ -----

  /** The characters that `.` does not match. */
  predicate LineTerminator(c: char)
  {
    c == '\n' || c == '\r' || c == '\U{2028}' || c == '\U{2029}'
  }

  predicate NoLineTerminator(s: string, lo: int, hi: int)
    requires 0 <= lo <= hi <= |s|
  {
    forall k :: lo <= k < hi ==> !LineTerminator(s[k])
  }

  /** `s[i..e + 1]` matches the pattern, with its `)=(` at index `j` and the
      capture `s[j + 3..e]`. */
  ghost predicate MatchShape(s: string, i: int, j: int, e: int)
  {
    && 0 <= i < j && j + 3 <= e < |s|
    && s[i] == '(' && s[j] == ')' && s[j + 1] == '=' && s[j + 2] == '('
    && s[e] == ')'
    && NoLineTerminator(s, i + 1, j) && NoLineTerminator(s, j + 3, e)
  }

  /** The match JavaScript reports: the leftmost start, and from it the
      shortest first group, then the shortest capture. */
  ghost predicate FirstMatch(s: string, i: int, j: int, e: int)
  {
    && MatchShape(s, i, j, e)
    && (forall i', j', e' :: 0 <= i' < i ==> !MatchShape(s, i', j', e'))
    && (forall j', e' :: j' < j ==> !MatchShape(s, i, j', e'))
    && (forall e' :: e' < e ==> !MatchShape(s, i, j, e'))
  }

  /** The first `)` at or after `p` that no line terminator precedes. */
  function CloseParen(s: string, p: nat): (e: Option<nat>)
    requires p <= |s|
    ensures e.Some? ==> p <= e.value < |s| && s[e.value] == ')' && NoLineTerminator(s, p, e.value)
    ensures e.Some? ==> forall k :: p <= k < e.value ==> s[k] != ')'
    ensures e.None? ==> forall k :: p <= k < |s| && s[k] == ')' ==> !NoLineTerminator(s, p, k)
    decreases |s| - p
  {
    if p == |s| || LineTerminator(s[p]) then None
    else if s[p] == ')' then Some(p)
    else CloseParen(s, p + 1)
  }

  /** Backtracking over the end `j` of the first group, for a match that
      starts at `i`: the smallest `j` from which the capture can close. */
  function MatchFrom(s: string, i: nat, j: nat): (m: Option<(nat, nat)>)
    requires i < j <= |s| && s[i] == '(' && NoLineTerminator(s, i + 1, j)
    ensures m.Some? ==> j <= m.value.0 && MatchShape(s, i, m.value.0, m.value.1)
    ensures m.Some? ==> forall j', e' :: j <= j' < m.value.0 ==> !MatchShape(s, i, j', e')
    ensures m.Some? ==> forall e' :: e' < m.value.1 ==> !MatchShape(s, i, m.value.0, e')
    ensures m.None? ==> forall j', e' :: j <= j' ==> !MatchShape(s, i, j', e')
    decreases |s| - j
  {
    if j + 3 <= |s| && s[j] == ')' && s[j + 1] == '=' && s[j + 2] == '(' && CloseParen(s, j + 3).Some? then
      Some((j, CloseParen(s, j + 3).value))
    else if j < |s| && !LineTerminator(s[j]) then
      MatchFrom(s, i, j + 1)
    else
      None
  }

  /** Scanning for the leftmost start of a match, from index `i` on. */
  function Search(s: string, i: nat): (m: Option<(nat, nat, nat)>)
    requires i <= |s|
    ensures m.Some? ==> i <= m.value.0 && MatchShape(s, m.value.0, m.value.1, m.value.2)
    ensures m.Some? ==> forall i', j', e' :: i <= i' < m.value.0 ==> !MatchShape(s, i', j', e')
    ensures m.Some? ==> forall j', e' :: j' < m.value.1 ==> !MatchShape(s, m.value.0, j', e')
    ensures m.Some? ==> forall e' :: e' < m.value.2 ==> !MatchShape(s, m.value.0, m.value.1, e')
    ensures m.None? ==> forall i', j', e' :: i <= i' ==> !MatchShape(s, i', j', e')
    decreases |s| - i
  {
    if i == |s| then None
    else if s[i] == '(' && MatchFrom(s, i, i + 1).Some? then
      var (j, e) := MatchFrom(s, i, i + 1).value;
      Some((i, j, e))
    else
      Search(s, i + 1)
  }

  /** `match[1]` of `detail.match(/\(.*?\)=\((.*?)\)/)`, or None when the
      detail does not match. */
  function DuplicateKeyCapture(detail: string): (c: Option<string>)
    ensures c.Some? <==> exists i, j, e :: MatchShape(detail, i, j, e)
    ensures c.Some? ==> exists i, j, e :: FirstMatch(detail, i, j, e) && c.value == detail[j + 3..e]
    ensures c.Some? ==> ')' !in c.value
  {
    match Search(detail, 0)
    case None => None
    case Some((i, j, e)) =>
      assert FirstMatch(detail, i, j, e);
      assert ')' !in detail[j + 3..e] by {
        forall k | j + 3 <= k < e ensures detail[k] != ')' {
          assert !MatchShape(detail, i, j, k);
        }
      }
      Some(detail[j + 3..e])
  }

  /** The first match is unique: the three indices are determined by the
      text. */
  lemma FirstMatchUnique(s: string, i: int, j: int, e: int, i': int, j': int, e': int)
    requires FirstMatch(s, i, j, e) && FirstMatch(s, i', j', e')
    ensures i == i' && j == j' && e == e'
  {
  }

  const DuplicateSlug: string := "Key (slug)=(t-shirt) already exists."

  /** The detail PostgreSQL gives for a duplicated slug yields the
      duplicated value. */
  lemma DuplicateSlugDetail()
    ensures DuplicateKeyCapture(DuplicateSlug) == Some("t-shirt")
  {
    DuplicateSlugMatches();
    var c := DuplicateKeyCapture(DuplicateSlug);
    var i, j, e :| FirstMatch(DuplicateSlug, i, j, e) && c.value == DuplicateSlug[j + 3..e];
    DuplicateSlugFirstMatch(i, j, e);
    DuplicateSlugValue();
  }

  lemma DuplicateSlugValue()
    ensures DuplicateSlug[12..19] == "t-shirt"
  {
    var v := DuplicateSlug[12..19];
    forall k | 0 <= k < 7 ensures v[k] == "t-shirt"[k] {
      assert v[k] == DuplicateSlug[12 + k];
    }
  }

  lemma DuplicateSlugMatches()
    ensures MatchShape(DuplicateSlug, 4, 9, 19)
  {
    assert NoLineTerminator(DuplicateSlug, 5, 9);
    assert NoLineTerminator(DuplicateSlug, 12, 19);
  }

  lemma DuplicateSlugFirstMatch(i: int, j: int, e: int)
    requires FirstMatch(DuplicateSlug, i, j, e)
    ensures i == 4 && j == 9 && e == 19
  {
    DuplicateSlugMatches();
    assert i <= 4;
    assert j <= 9;
    assert e <= 19;
  }

  // ----- handleExceptions -----

  /** handleExceptions: None when it returns normally, otherwise what it
      throws. */
  function HandleExceptions(error: DbError): (thrown: Option<Thrown>)
    ensures thrown.None? <==>
      && error.code == Some(UniqueViolation) && error.detail.Some?
      && DuplicateKeyCapture(error.detail.value).None?
    ensures thrown == Some(Http(InternalServerError)) <==>
      error.code != Some(UniqueViolation) && error.code != Some(NotNullViolation)
    ensures thrown == Some(TypeError) <==>
      || (error.code == Some(UniqueViolation) && error.detail.None?)
      || (error.code == Some(NotNullViolation) && error.column.None?)
    ensures (thrown.Some? && thrown.value.Http? && thrown.value.exception.BadRequest?) <==>
      || (error.code == Some(UniqueViolation) && error.detail.Some?
          && exists i, j, e :: MatchShape(error.detail.value, i, j, e))
      || (error.code == Some(NotNullViolation) && error.column.Some?)
    ensures thrown.Some? && thrown.value.Http? && thrown.value.exception.BadRequest? ==>
      match thrown.value.exception.reason
      case DuplicateValue(v) =>
        && error.code == Some(UniqueViolation)
        && '=' !in v && ')' !in v
        && v <= DuplicateKeyCapture(error.detail.value).value
        && (|v| < |DuplicateKeyCapture(error.detail.value).value| ==>
              OccursAt(DuplicateKeyCapture(error.detail.value).value, "=", |v|))
      case MissingParameter(n) =>
        && error.code == Some(NotNullViolation)
        && n <= error.column.value
        && (forall k :: 0 <= k < |n| ==> !OccursAt(error.column.value, "\"\"", k))
        && (|n| < |error.column.value| ==> OccursAt(error.column.value, "\"\"", |n|))
      case NoProductWithId(_) => false
  {
    if error.code == Some(UniqueViolation) then
      if error.detail.None? then Some(TypeError)
      else match DuplicateKeyCapture(error.detail.value)
        case Some(capture) =>
          var name := SplitHead(capture, "=");
          assert '=' !in name by {
            forall k | 0 <= k < |name| ensures name[k] != '=' {
              assert !OccursAt(capture, "=", k);
              assert capture[k..k + 1] == [capture[k]];
            }
          }
          Some(Http(BadRequest(DuplicateValue(name))))
        case None => None
    else if error.code == Some(NotNullViolation) then
      if error.column.None? then Some(TypeError)
      else Some(Http(BadRequest(MissingParameter(SplitHead(error.column.value, "\"\"")))))
    else
      Some(Http(InternalServerError))
  }

  /** A duplicated slug is reported as a bad request naming the value. */
  lemma DuplicateSlugIsBadRequest()
    ensures HandleExceptions(DbError(Some(UniqueViolation), Some(DuplicateSlug), None))
            == Some(Http(BadRequest(DuplicateValue("t-shirt"))))
  {
    DuplicateSlugDetail();
    SplitHeadNoSeparator("t-shirt", "=");
  }

  /** A missing title is reported as a bad request naming the column. */
  lemma MissingTitleIsBadRequest()
    ensures HandleExceptions(DbError(Some(NotNullViolation), None, Some("title")))
            == Some(Http(BadRequest(MissingParameter("title"))))
  {
    SplitHeadNoSeparator("title", "\"\"");
  }
}
