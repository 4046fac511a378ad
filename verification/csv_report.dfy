/**
 * The CSV projection of app/index.js: the fixed `fields` table (one column
 * per label, in order), the computed Alert Link column, and the chunks the
 * run appends to the report file.
 */
module CsvReport {
  import opened Wrappers
  import opened SeqFacts
  import opened Alerts
  import opened Decimal

  /** The column labels, in output order. */
  const ColumnLabels: seq<string> := [
    "Manifest", "Package Name", "Impacted Version", "Patched Version",
    "Severity", "Summary", "CVE Link", "Alert Link"]

  /** A CSV field before quoting: `None` where the field's path resolves to nothing. */
  type Cell = Option<string>

  type Row = seq<Cell>

  /** The header row that the writer emits when asked to. */
  function HeaderRow(): (r: Row)
    ensures |r| == |ColumnLabels|
    ensures forall i :: 0 <= i < |r| ==> r[i] == Some(ColumnLabels[i])
  {
    seq(|ColumnLabels|, i requires 0 <= i < |ColumnLabels| => Some(ColumnLabels[i]))
  }

  const LinkPrefix: string := "https://github.com/"
  const LinkMiddle: string := "/security/dependabot/"

  /** The deep link to an alert, built from owner login, repository name and alert number. */
  function AlertLink(ownerLogin: string, repoName: string, number: nat): (link: string)
    ensures LinkPrefix <= link
  {
    LinkPrefix + ownerLogin + "/" + repoName + LinkMiddle + NatToDecimal(number)
  }

  /** The projection of one alert through the `fields` table. */
  function AlertRow(a: Alert): (r: Row)
    ensures |r| == |ColumnLabels|
    ensures forall i :: 0 <= i < |r| && i != 3 ==> r[i].Some?
    ensures r[3].None? <==> a.securityVulnerability.firstPatchedVersion.None?
  {
    [ Some(a.vulnerableManifestPath),
      Some(a.securityVulnerability.packageName),
      Some(a.securityVulnerability.vulnerableVersionRange),
      match a.securityVulnerability.firstPatchedVersion
        case None => None
        case Some(p) => Some(p.identifier),
      Some(SeverityName(a.securityAdvisory.severity)),
      Some(a.securityAdvisory.summary),
      Some(a.securityAdvisory.permalink),
      Some(AlertLink(a.repository.ownerLogin, a.repository.name, a.number)) ]
  }

  /** `alerts.map(AlertRow)`. */
  function Rows(alerts: seq<Alert>): (rows: seq<Row>)
    ensures |rows| == |alerts|
  {
    if alerts == [] then [] else [AlertRow(alerts[0])] + Rows(alerts[1..])
  }

  /** The i-th row is the projection of the i-th alert: one row per alert, in order. */
  lemma {:induction false} RowsAt(alerts: seq<Alert>, i: nat)
    requires i < |alerts|
    ensures Rows(alerts)[i] == AlertRow(alerts[i])
  {
    if i > 0 {
      RowsAt(alerts[1..], i - 1);
    }
  }

  /** Projecting two pages one after the other projects their concatenation. */
  lemma {:induction false} RowsAppend(a: seq<Alert>, b: seq<Alert>)
    ensures Rows(a + b) == Rows(a) + Rows(b)
  {
    if a == [] {
      assert a + b == b;
    } else {
      assert (a + b)[1..] == a[1..] + b;
      RowsAppend(a[1..], b);
    }
  }

  // ---------------------------------------------------------------------
  // Reading an Alert Link back

  datatype LinkParts = LinkParts(ownerLogin: string, repoName: string, number: nat)

  /** The first position of `c` in `s`, if any. */
  function IndexOf(s: string, c: char): (r: Option<nat>)
    ensures r.Some? ==> r.value < |s| && s[r.value] == c && forall k :: 0 <= k < r.value ==> s[k] != c
    ensures r.None? ==> c !in s
  {
    if |s| == 0 then None
    else if s[0] == c then Some(0)
    else match IndexOf(s[1..], c)
      case None => None
      case Some(i) => Some(i + 1)
  }

  /**
   * Splits a link of the shape `prefix + owner + "/" + repository + middle + number`
   * into owner login, repository name and number.
   */
  function ParseLink(prefix: string, middle: string, link: string): (r: Option<LinkParts>)
    ensures r.Some? ==> '/' !in r.value.ownerLogin && '/' !in r.value.repoName
  {
    if !(prefix <= link) then None else ParseOwner(middle, link[|prefix|..])
  }

  /** Splits what follows the prefix into the owner login up to the first '/', and the rest. */
  function ParseOwner(middle: string, rest: string): (r: Option<LinkParts>)
    ensures r.Some? ==> '/' !in r.value.ownerLogin && '/' !in r.value.repoName
  {
    match IndexOf(rest, '/')
    case None => None
    case Some(i) =>
      match ParseRepository(middle, rest[i + 1..])
      case None => None
      case Some((repoName, n)) => Some(LinkParts(rest[..i], repoName, n))
  }

  /** Splits what follows the owner's '/' into the repository name and the number after `middle`. */
  function ParseRepository(middle: string, afterOwner: string): (r: Option<(string, nat)>)
    ensures r.Some? ==> '/' !in r.value.0
  {
    match IndexOf(afterOwner, '/')
    case None => None
    case Some(j) =>
      var tail := afterOwner[j..];
      if !(middle <= tail) then None
      else match ParseDecimal(tail[|middle|..])
        case None => None
        case Some(n) => Some((afterOwner[..j], n))
  }

  /** Splits an Alert Link into owner login, repository name and alert number. */
  function ParseAlertLink(link: string): (r: Option<LinkParts>)
    ensures r.Some? ==> '/' !in r.value.ownerLogin && '/' !in r.value.repoName
  {
    ParseLink(LinkPrefix, LinkMiddle, link)
  }

  lemma IndexOfFirst(before: string, after: string, c: char)
    requires c !in before && after != [] && after[0] == c
    ensures IndexOf(before + after, c) == Some(|before|)
  {
    var s := before + after;
    assert s[|before|] == c;
    assert forall k :: 0 <= k < |before| ==> s[k] == before[k];
  }

  /**
   * The shape of `p + owner + "/" + repo + m + d` when neither name contains
   * '/' and `m` starts with '/': the positions of the two separators and the
   * pieces between them.
   */
  lemma LinkShape(p: string, owner: string, repo: string, m: string, d: string)
    requires '/' !in owner && '/' !in repo && m != [] && m[0] == '/'
    ensures var afterOwner := repo + m + d;
      var rest := owner + ("/" + afterOwner);
      p + owner + "/" + repo + m + d == p + rest &&
      IndexOf(rest, '/') == Some(|owner|) && rest[..|owner|] == owner && rest[|owner| + 1..] == afterOwner &&
      IndexOf(afterOwner, '/') == Some(|repo|) && afterOwner[..|repo|] == repo &&
      m <= afterOwner[|repo|..] && afterOwner[|repo|..][|m|..] == d
  {
    var afterOwner := repo + (m + d);
    assert repo + m + d == afterOwner;
    IndexOfFirst(repo, m + d, '/');
    assert afterOwner[|repo|..] == m + d;
    var rest := owner + ("/" + afterOwner);
    IndexOfFirst(owner, "/" + afterOwner, '/');
    assert rest[..|owner|] == owner;
    assert rest[|owner| + 1..] == afterOwner;
    Concat6Assoc(p, owner, "/", repo, m, d);
  }

  /**
   * An Alert Link names its alert: owner logins and repository names never
   * contain '/', so the link splits back into the three values it was built from.
   */
  lemma AlertLinkRoundTrip(ownerLogin: string, repoName: string, number: nat)
    requires '/' !in ownerLogin && '/' !in repoName
    ensures ParseAlertLink(AlertLink(ownerLogin, repoName, number)) == Some(LinkParts(ownerLogin, repoName, number))
  {
    var digits := NatToDecimal(number);
    DecimalRoundTrip(number);
    LinkShape(LinkPrefix, ownerLogin, repoName, LinkMiddle, digits);
    var afterOwner := repoName + LinkMiddle + digits;
    ParseLinkFrom(LinkPrefix, LinkMiddle, ownerLogin + ("/" + afterOwner), |ownerLogin|, afterOwner, |repoName|, digits, number);
  }

  /** How the parser walks a link: prefix, owner up to '/', repository up to '/', middle, number. */
  lemma ParseLinkFrom(prefix: string, middle: string, rest: string, i: nat, afterOwner: string, j: nat, digits: string, n: nat)
    requires IndexOf(rest, '/') == Some(i) && rest[i + 1..] == afterOwner
    requires IndexOf(afterOwner, '/') == Some(j)
    requires middle <= afterOwner[j..] && afterOwner[j..][|middle|..] == digits
    requires ParseDecimal(digits) == Some(n)
    ensures ParseLink(prefix, middle, prefix + rest) == Some(LinkParts(rest[..i], afterOwner[..j], n))
  {
    DropPrefix(prefix, rest);
    ParseOwnerFrom(middle, rest, i, afterOwner, j, digits, n);
  }

  /** How the parser walks what follows the prefix: owner up to '/', then the repository and number. */
  lemma ParseOwnerFrom(middle: string, rest: string, i: nat, afterOwner: string, j: nat, digits: string, n: nat)
    requires IndexOf(rest, '/') == Some(i) && rest[i + 1..] == afterOwner
    requires IndexOf(afterOwner, '/') == Some(j)
    requires middle <= afterOwner[j..] && afterOwner[j..][|middle|..] == digits
    requires ParseDecimal(digits) == Some(n)
    ensures ParseOwner(middle, rest) == Some(LinkParts(rest[..i], afterOwner[..j], n))
  {
    ParseRepositoryFrom(middle, afterOwner, j, digits, n);
  }

  /** How the parser walks what follows the owner: repository up to '/', middle, number. */
  lemma ParseRepositoryFrom(middle: string, afterOwner: string, j: nat, digits: string, n: nat)
    requires IndexOf(afterOwner, '/') == Some(j)
    requires middle <= afterOwner[j..] && afterOwner[j..][|middle|..] == digits
    requires ParseDecimal(digits) == Some(n)
    ensures ParseRepository(middle, afterOwner) == Some((afterOwner[..j], n))
  {
  }

  /** The link of alert 42 of acme/widgets, spelled out. */
  lemma AcmeWidgetsLink()
    ensures AlertLink("acme", "widgets", 42) == "https://github.com/acme/widgets/security/dependabot/42"
  {
    FortyTwoDigits();
    AcmeWidgetsStem();
  }

  /** The number 42 is rendered as its two digits. */
  lemma FortyTwoDigits()
    ensures NatToDecimal(42) == "42"
  {
    assert NatToDecimal(4) == "4";
  }

  /** The part of the acme/widgets link that precedes the alert number. */
  lemma AcmeWidgetsStem()
    ensures LinkPrefix + "acme" + "/" + "widgets" + LinkMiddle == "https://github.com/acme/widgets/security/dependabot/"
  {
    AcmeWidgetsRepository();
  }

  /** The part of the acme/widgets link that names the repository. */
  lemma AcmeWidgetsRepository()
    ensures LinkPrefix + "acme" + "/" + "widgets" == "https://github.com/acme/widgets"
  {
    assert LinkPrefix + "acme" == "https://github.com/acme";
  }

  /** Two alerts with the same Alert Link share owner, repository and number. */
  lemma AlertLinkInjective(o1: string, r1: string, n1: nat, o2: string, r2: string, n2: nat)
    requires '/' !in o1 && '/' !in r1 && '/' !in o2 && '/' !in r2
    requires AlertLink(o1, r1, n1) == AlertLink(o2, r2, n2)
    ensures o1 == o2 && r1 == r2 && n1 == n2
  {
    AlertLinkRoundTrip(o1, r1, n1);
    AlertLinkRoundTrip(o2, r2, n2);
  }

  /** The header row: the eight labels of the `fields` table, in order. */
  lemma HeaderLabels()
    ensures HeaderRow() == [Some("Manifest"), Some("Package Name"), Some("Impacted Version"),
      Some("Patched Version"), Some("Severity"), Some("Summary"), Some("CVE Link"), Some("Alert Link")]
  {
  }

  /**
   * What a row says about its alert, column by column in the order of the
   * header's labels: Manifest is the manifest path, Package Name, Impacted
   * Version and Patched Version come from the vulnerability, Severity names
   * the advisory's severity, and Summary and CVE Link come from the advisory.
   */
  lemma AlertRowDescribesAlert(a: Alert)
    ensures |AlertRow(a)| == |HeaderRow()| == 8
    ensures AlertRow(a)[0] == Some(a.vulnerableManifestPath)
    ensures AlertRow(a)[1] == Some(a.securityVulnerability.packageName)
    ensures AlertRow(a)[2] == Some(a.securityVulnerability.vulnerableVersionRange)
    ensures a.securityVulnerability.firstPatchedVersion.Some? ==>
      AlertRow(a)[3] == Some(a.securityVulnerability.firstPatchedVersion.value.identifier)
    ensures ParseSeverity(AlertRow(a)[4].value) == Some(a.securityAdvisory.severity)
    ensures AlertRow(a)[5] == Some(a.securityAdvisory.summary)
    ensures AlertRow(a)[6] == Some(a.securityAdvisory.permalink)
  {
    SeverityNameRoundTrip(a.securityAdvisory.severity);
  }

  /** The last column, Alert Link, leads back to the alert's repository and number. */
  lemma AlertRowLink(a: Alert)
    requires '/' !in a.repository.ownerLogin && '/' !in a.repository.name
    ensures AlertRow(a)[7].Some?
    ensures ParseAlertLink(AlertRow(a)[7].value) ==
      Some(LinkParts(a.repository.ownerLogin, a.repository.name, a.number))
  {
    var link := AlertLink(a.repository.ownerLogin, a.repository.name, a.number);
    assert AlertRow(a)[7] == Some(link);
    AlertLinkRoundTrip(a.repository.ownerLogin, a.repository.name, a.number);
  }

  // ---------------------------------------------------------------------
  // The report file

  /** One `appendFileSync` of the run: the writer's header flag and the alerts handed to the writer. */
  datatype Chunk = Chunk(header: bool, alerts: seq<Alert>)

  /** The rows one chunk puts in the file: the header row first when the flag is set, then one row per alert. */
  function ChunkLines(c: Chunk): (lines: seq<Row>)
    ensures |lines| == |c.alerts| + (if c.header then 1 else 0)
    ensures c.header ==> lines[0] == HeaderRow()
  {
    (if c.header then [HeaderRow()] else []) + Rows(c.alerts)
  }

  /** No alert's row is the header row: its Severity cell names a severity, never the label "Severity". */
  lemma RowIsNotHeader(a: Alert)
    ensures AlertRow(a) != HeaderRow()
  {
    assert AlertRow(a)[4] != HeaderRow()[4];
  }

  /** The projected rows of a page never include the header row. */
  lemma NoRowIsHeader(alerts: seq<Alert>)
    ensures HeaderRow() !in Rows(alerts)
  {
    forall i | 0 <= i < |alerts|
      ensures Rows(alerts)[i] != HeaderRow()
    {
      RowsAt(alerts, i);
      RowIsNotHeader(alerts[i]);
    }
  }

  /** A chunk puts the header row in the file exactly when its header flag is set. */
  lemma ChunkHeaderIff(c: Chunk)
    ensures HeaderRow() in ChunkLines(c) <==> c.header
  {
    NoRowIsHeader(c.alerts);
    if !c.header {
      assert ChunkLines(c) == Rows(c.alerts);
    }
  }

  /** The rows of the whole file, chunk after chunk. */
  function FileLines(chunks: seq<Chunk>): (lines: seq<Row>)
    ensures chunks != [] ==> ChunkLines(chunks[0]) <= lines
  {
    if chunks == [] then [] else FileLines(chunks[..|chunks| - 1]) + ChunkLines(chunks[|chunks| - 1])
  }

  /** How many chunks asked for a header row. */
  function HeaderCount(chunks: seq<Chunk>): (n: nat)
    ensures n <= |chunks|
  {
    if chunks == [] then 0
    else HeaderCount(chunks[..|chunks| - 1]) + (if chunks[|chunks| - 1].header then 1 else 0)
  }

  /** Appending one chunk adds one to the count exactly when that chunk asks for a header. */
  lemma HeaderCountSnoc(chunks: seq<Chunk>, c: Chunk)
    ensures HeaderCount(chunks + [c]) == HeaderCount(chunks) + (if c.header then 1 else 0)
  {
    assert (chunks + [c])[..|chunks|] == chunks;
  }
}
