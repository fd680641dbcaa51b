/**
 * The dashboard page: the redirect decision for a missing session, the header
 * message, the avatar initials and one card per study with its source label
 * and content preview.
 */
module Dashboard {
  import opened Wrappers
  import opened Text
  import opened StudyRecord

  const LoginPath := "/login"
  const FirstStudyPrompt := "Create your first study to get started"
  const CountPrefix := "You have "
  const PreviewLength := 150
  const Ellipsis := "..."
  const NotesLabel := "Notes"

  // ---------------------------------------------------------------------------
  // Card labels

  /** The source label of a study card: "n PDF" for one file, "n PDFs" otherwise, "Notes" for notes. */
  function SourceLabel(s: Study): (r: string)
    ensures s.sourceType != Pdf ==> r == NotesLabel
  {
    if s.sourceType == Pdf then
      var n := PdfCount(s);
      NatToString(n) + " PDF" + (if n != 1 then "s" else "")
    else
      NotesLabel
  }

  /** A PDF label is "1 PDF" for one file and "n PDFs" for any other count n. */
  lemma SourceLabelPlural(s: Study)
    requires s.sourceType == Pdf
    ensures PdfCount(s) == 1 ==> SourceLabel(s) == "1 PDF"
    ensures PdfCount(s) != 1 ==> SourceLabel(s) == NatToString(PdfCount(s)) + " PDFs"
    ensures EndsWith(SourceLabel(s), " PDF") <==> PdfCount(s) == 1
    ensures EndsWith(SourceLabel(s), " PDFs") <==> PdfCount(s) != 1
  {
    var r := SourceLabel(s);
    if PdfCount(s) == 1 {
      assert r == "1 PDF";
    } else {
      var d := NatToString(PdfCount(s));
      assert r == d + " PDFs";
      EndsWithConcat(d, " PDFs");
      assert r[|r| - 1] == 's';
    }
  }

  /** Reads the file count back out of a source label; a label without a count is None. */
  function LabelCount(shown: string): Option<nat> {
    var d := LeadingDigits(shown);
    if d == [] then None else Some(ParseDigits(d))
  }

  /** The label shows the true file count of a PDF study and no count for a notes study. */
  lemma SourceLabelRoundTrip(s: Study)
    ensures LabelCount(SourceLabel(s)) == if s.sourceType == Pdf then Some(PdfCount(s)) else None
  {
    if s.sourceType == Pdf {
      var n := PdfCount(s);
      var rest := " PDF" + (if n != 1 then "s" else "");
      assert SourceLabel(s) == NatToString(n) + rest;
      LeadingDigitsOf(NatToString(n), rest);
      ParseNatToString(n);
    } else {
      assert !IsDigit(NotesLabel[0]);
    }
  }

  /** Two PDF studies with different file counts never get the same label. */
  lemma SourceLabelInjective(s: Study, t: Study)
    requires s.sourceType == Pdf && t.sourceType == Pdf
    requires PdfCount(s) != PdfCount(t)
    ensures SourceLabel(s) != SourceLabel(t)
  {
    SourceLabelRoundTrip(s);
    SourceLabelRoundTrip(t);
  }

  // ---------------------------------------------------------------------------
  // Header message

  /** The line under "Your Studies" for a dashboard holding n studies. */
  function CountMessage(n: nat): (r: string)
    ensures n > 0 ==> |r| > |CountPrefix| && r[..|CountPrefix|] == CountPrefix
  {
    if n == 0 then FirstStudyPrompt
    else CountPrefix + NatToString(n) + " " + (if n == 1 then "study" else "studies")
  }

  /** The prompt appears exactly for an empty dashboard; otherwise the header is "You have N study" for one study and "You have N studies" for more. */
  lemma CountMessageShape(n: nat)
    ensures CountMessage(n) == FirstStudyPrompt <==> n == 0
    ensures n == 1 ==> CountMessage(n) == "You have 1 study"
    ensures n > 1 ==> CountMessage(n) == CountPrefix + NatToString(n) + " studies"
    ensures n > 0 ==> (EndsWith(CountMessage(n), " study") <==> n == 1)
    ensures n > 0 ==> (EndsWith(CountMessage(n), " studies") <==> n != 1)
  {
    var r := CountMessage(n);
    if n == 1 {
      assert r == "You have 1 study";
      assert r[|r| - 1] != 's';
    } else if n > 1 {
      var head := CountPrefix + NatToString(n);
      assert r == head + " studies";
      EndsWithConcat(head, " studies");
      assert r[0] != FirstStudyPrompt[0];
      assert r[|r| - 1] != 'y';
    }
  }

  /** Reads the study count back out of a header message. */
  function MessageCount(msg: string): nat {
    if |msg| >= |CountPrefix| && msg[..|CountPrefix|] == CountPrefix
    then ParseDigits(LeadingDigits(msg[|CountPrefix|..]))
    else 0
  }

  /** The header message states the true number of studies. */
  lemma CountMessageRoundTrip(n: nat)
    ensures MessageCount(CountMessage(n)) == n
  {
    if n > 0 {
      var d := NatToString(n);
      var rest := " " + (if n == 1 then "study" else "studies");
      assert CountMessage(n)[|CountPrefix|..] == d + rest;
      LeadingDigitsOf(d, rest);
      ParseNatToString(n);
    } else {
      assert FirstStudyPrompt[..|CountPrefix|] != CountPrefix by {
        assert FirstStudyPrompt[0] != CountPrefix[0];
      }
    }
  }

  // ---------------------------------------------------------------------------
  // Avatar initials and content preview

  /** `email.slice(0, 2).toUpperCase()`. */
  function Initials(email: string): (r: string)
    ensures |r| == if |email| < 2 then |email| else 2
    ensures forall i :: 0 <= i < |r| ==> r[i] == UpperChar(email[i])
    ensures forall i :: 0 <= i < |r| ==> !IsLower(r[i])
  {
    ToUpper(Take(email, 2))
  }

  /** `content.slice(0, 150)` followed by "...", which is written even when nothing was cut. */
  function Preview(content: string): (r: string)
    ensures |r| == (if |content| < PreviewLength then |content| else PreviewLength) + |Ellipsis|
    ensures |r| <= PreviewLength + |Ellipsis|
    ensures r[..|r| - |Ellipsis|] == content[..|r| - |Ellipsis|]
    ensures EndsWith(r, Ellipsis)
  {
    Take(content, PreviewLength) + Ellipsis
  }

  /** Content of at most 150 characters is shown whole, with "..." after it. */
  lemma PreviewOfShortContent(content: string)
    requires |content| <= PreviewLength
    ensures Preview(content) == content + Ellipsis
  {
  }

  // ---------------------------------------------------------------------------
  // The studies view

  /** What one study card shows. The creation date is kept as its raw value. */
  datatype Card = Card(
    href: string,
    sourceLabel: string,
    title: string,
    description: Option<string>,
    preview: string,
    createdAt: int)

  /** Exactly one of the empty-state card and the grid of study cards. */
  datatype View = EmptyState | Grid(cards: seq<Card>)

  function CardOf(s: Study): (c: Card)
    ensures c.href == "/study/" + s.id
    ensures c.sourceLabel == SourceLabel(s) && c.title == s.title && c.preview == Preview(s.content)
    ensures c.createdAt == s.createdAt
    ensures c.description.Some? <==> s.description.Some? && s.description.value != ""
    ensures c.description.Some? ==> c.description == s.description
  {
    Card(
      href := "/study/" + s.id,
      sourceLabel := SourceLabel(s),
      title := s.title,
      description := if s.description.Some? && s.description.value != "" then s.description else None,
      preview := Preview(s.content),
      createdAt := s.createdAt)
  }

  /** The empty state for no studies, otherwise one card per study in the order received. */
  function StudiesView(studies: seq<Study>): (v: View)
    ensures v.EmptyState? <==> |studies| == 0
    ensures v.Grid? ==> |v.cards| == |studies|
    ensures v.Grid? ==> forall i :: 0 <= i < |studies| ==> v.cards[i] == CardOf(studies[i])
  {
    if |studies| == 0 then EmptyState
    else Grid(seq(|studies|, i requires 0 <= i < |studies| => CardOf(studies[i])))
  }

  // ---------------------------------------------------------------------------
  // Page decision

  datatype User = User(email: string)

  /** What `GET /auth/me` came back with: an ok response carrying `data.user` (possibly absent), a non-ok response, or an exception. */
  datatype UserResponse = MeOk(user: Option<User>) | MeNotOk | MeThrew

  /** What `GET /studies` came back with. */
  datatype StudiesResponse = StudiesOk(studies: seq<Study>) | StudiesNotOk | StudiesThrew

  /** The backend calls the page makes, in order. */
  datatype Call = GetUser(token: string) | GetStudies(token: string)

  datatype Page =
    | Redirect(to: string)
    | Rendered(initials: string, email: string, header: string, view: View)

  datatype PageResult = PageResult(calls: seq<Call>, page: Page)

  /** `getUser`: the user of an ok response, null for anything else. */
  function UserOf(resp: UserResponse): (u: Option<User>)
    ensures u.Some? <==> resp.MeOk? && resp.user.Some?
    ensures resp.MeOk? ==> u == resp.user
  {
    match resp
    case MeOk(user) => user
    case _ => None
  }

  /** `getStudies`: the studies of an ok response, an empty list for anything else. */
  function StudiesOf(resp: StudiesResponse): (s: seq<Study>)
    ensures !resp.StudiesOk? ==> s == []
    ensures resp.StudiesOk? ==> s == resp.studies
  {
    match resp
    case StudiesOk(studies) => studies
    case _ => []
  }

  /** `!token`: a missing cookie and an empty cookie value both count as no session. */
  predicate HasToken(cookie: Option<string>) {
    cookie.Some? && cookie.value != ""
  }

  /**
   * The dashboard page for the `auth_token` cookie value, with the backend's
   * answers to the user lookup and the studies fetch given as functions of the token.
   */
  function DashboardPage(cookie: Option<string>, me: string -> UserResponse, list: string -> StudiesResponse): (r: PageResult)
    ensures r.page.Redirect? <==> !HasToken(cookie) || UserOf(me(cookie.value)).None?
    ensures r.page.Redirect? ==> r.page.to == LoginPath
    ensures r.page.Redirect? ==> forall c :: c in r.calls ==> c.GetUser?
    ensures !HasToken(cookie) ==> r.calls == []
    ensures HasToken(cookie) && r.page.Redirect? ==> r.calls == [GetUser(cookie.value)]
    ensures HasToken(cookie) ==> |r.calls| >= 1 && r.calls[0] == GetUser(cookie.value)
    ensures r.page.Rendered? ==>
      var user := UserOf(me(cookie.value)).value;
      var studies := StudiesOf(list(cookie.value));
      r.calls == [GetUser(cookie.value), GetStudies(cookie.value)] &&
      r.page == Rendered(Initials(user.email), user.email, CountMessage(|studies|), StudiesView(studies))
  {
    if !HasToken(cookie) then PageResult([], Redirect(LoginPath))
    else
      var token := cookie.value;
      match UserOf(me(token))
      case None => PageResult([GetUser(token)], Redirect(LoginPath))
      case Some(user) =>
        var studies := StudiesOf(list(token));
        PageResult([GetUser(token), GetStudies(token)],
          Rendered(Initials(user.email), user.email, CountMessage(|studies|), StudiesView(studies)))
  }

  /** A signed-in user whose studies could not be fetched sees the empty state and the first-study prompt. */
  lemma FailedStudiesFetchShowsEmptyState(cookie: Option<string>, me: string -> UserResponse, list: string -> StudiesResponse)
    requires HasToken(cookie) && UserOf(me(cookie.value)).Some?
    requires !list(cookie.value).StudiesOk?
    ensures DashboardPage(cookie, me, list).page.Rendered?
    ensures DashboardPage(cookie, me, list).page.view == EmptyState
    ensures DashboardPage(cookie, me, list).page.header == FirstStudyPrompt
  {
  }
}
