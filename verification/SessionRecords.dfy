/**
 The normalising of saved browser sessions (apps/desktop/src/browser-session-store.ts). Unicode normalisation, URL
 parsing and the owner check are parameters, with the laws their standards give them.
 */
module SessionRecords {
  import opened Wrappers
  import opened Utf16
  import opened Utf8
  import opened Bounding

  const MAX_URL_BYTES := 8192
  const MAX_ORDER := 100000

  /** A parsed URL: what the sanitiser looks at, and the rest. */
  datatype Url = Url(web: bool, credentials: bool, query: seq<Parameter>, hash: Text, rest: Text)

  datatype Parameter = Parameter(key: Text, value: Text)

  /**
   The platform: NFKC, the spellings of about:blank, the URL parser and serialiser, the deletion of the sensitive
   parameters of a URL, sensitive keys, owner ids. A deletion writes the rest of the query anew, so what it leaves of
   the URL is up to the platform.
   */
  datatype Platform = Platform(
    nfkc: Text -> Text,
    isBlank: Text -> bool,
    parse: Text -> Option<Url>,
    show: Url -> Text,
    strip: Url -> Url,
    isSensitive: Text -> bool,
    isOwner: Text -> bool)

  predicate Clean(query: seq<Parameter>, isSensitive: Text -> bool) {
    forall i :: 0 <= i < |query| ==> !isSensitive(query[i].key)
  }

  /** A URL without its sensitive parameters and its fragment. */
  function Cleaned(p: Platform, u: Url): Url {
    p.strip(u).(hash := [])
  }

  /** Stripping leaves a URL of the same kind without sensitive parameters, and one without them as it is. */
  ghost predicate Strips(p: Platform, urls: iset<Url>) {
    forall u :: u in urls ==>
      var v := p.strip(u);
      && v in urls && Clean(v.query, p.isSensitive) && v.web == u.web && v.credentials == u.credentials
      && (Clean(u.query, p.isSensitive) ==> v == u)
  }

  /**
   NFKC leaves ASCII alone. As in the URL Standard, what the parser returns is a URL, and so is one that is stripped or
   has its fragment dropped; a web URL is written in printable ASCII without spaces, not as about:blank, and parses to
   itself.
   */
  ghost predicate LawfulFor(p: Platform, urls: iset<Url>) {
    && (forall s :: Graphic(s) ==> p.nfkc(s) == s)
    && (forall s :: p.parse(s).Some? ==> p.parse(s).value in urls)
    && Strips(p, urls)
    && (forall u: Url {:trigger u.(hash := [])} :: u in urls ==> u.(hash := []) in urls)
    && (forall u :: u in urls && u.web ==> Graphic(p.show(u)) && p.show(u) != [] && !p.isBlank(p.show(u)))
    && (forall u :: u in urls && u.web ==> p.parse(p.show(u)) == Some(u))
    && p.isBlank(BLANK)
  }

  ghost predicate Lawful(p: Platform) {
    exists urls :: LawfulFor(p, urls)
  }

  /** about:blank */
  const BLANK: Text := Ascii("about:blank")

  // ---- bounded strings ----

  function Bounded(p: Platform, s: Text, max: nat): Option<Text> {
    if s == [] then None else
    var r := BoundText(Trim(Spaced(p.nfkc(s))), max);
    if r == [] then None else Some(r)
  }

  /** The end of boundedString: one code unit is dropped at a time, but never the last. */
  method CutToFit(s: Text, max: nat) returns (r: Text)
    requires max >= 3
    ensures r == BoundText(s, max)
  {
    r := s;
    while ByteLength(r) > max
      invariant BoundText(r, max) == BoundText(s, max)
      decreases |r|
    {
      if |r| <= 1 { AtMostThreeBytes(r); }
      r := r[..if |r| - 1 > 1 then |r| - 1 else 1];
    }
  }

  lemma AtMostThreeBytes(s: Text)
    requires |s| <= 1
    ensures ByteLength(s) <= 3
  {
    if s != [] { assert ByteLength(s[1..]) == 0; }
  }

  lemma {:induction false} GraphicBytes(s: Text)
    requires Graphic(s)
    ensures ByteLength(s) == |s|
  {
    if s != [] {
      assert !StartsPair(s);
      GraphicBytes(s[1..]);
    }
  }

  lemma GraphicIsClean(s: Text)
    requires Graphic(s)
    ensures Spaced(s) == s && Trim(s) == s
  {
    assert forall i :: 0 <= i < |s| ==> !IsControl(s[i]) && !IsSpace(s[i]);
  }

  /** Printable ASCII that fits passes unchanged. */
  lemma GraphicIsBounded(p: Platform, s: Text, max: nat)
    requires Lawful(p) && Graphic(s) && 0 < |s| <= max
    ensures Bounded(p, s, max) == Some(s)
  {
    GraphicIsClean(s);
    GraphicBytes(s);
  }

  // ---- the fields ----

  predicate IsHex(u: Unit) {
    0x30 <= u <= 0x39 || 0x61 <= u <= 0x66 || 0x41 <= u <= 0x46
  }

  /** Eight, four, four, four and twelve hexadecimal digits between hyphens; the fourth group starts with 8, 9, a or b. */
  predicate IsSurfaceId(s: Text) {
    && |s| == 36 && (s[19] == 0x38 || s[19] == 0x39 || s[19] == 0x61 || s[19] == 0x62 || s[19] == 0x41 || s[19] == 0x42)
    && forall i :: 0 <= i < 36 ==> if i == 8 || i == 13 || i == 18 || i == 23 then s[i] == 0x2D else IsHex(s[i])
  }

  const SURFACE: Text := Ascii("surface:")

  predicate IsHandle(s: Text) {
    && 9 <= |s| <= 17 && s[..8] == SURFACE && s[8] != 0x30
    && forall i :: 8 <= i < |s| ==> 0x30 <= s[i] <= 0x39
  }

  predicate IsProfileId(s: Text) {
    && 1 <= |s| <= 64 && 0x61 <= s[0] <= 0x7A && s != Ascii("default") && s != Ascii("session")
    && forall i :: 0 <= i < |s| ==>
         0x61 <= s[i] <= 0x7A || 0x30 <= s[i] <= 0x39 || s[i] == 0x2E || s[i] == 0x5F || s[i] == 0x2D
  }

  datatype Shape = SurfaceIdShape | HandleShape | ProfileIdShape

  predicate Matches(shape: Shape, s: Text) {
    match shape
    case SurfaceIdShape => IsSurfaceId(s)
    case HandleShape => IsHandle(s)
    case ProfileIdShape => IsProfileId(s)
  }

  function Limit(shape: Shape): nat {
    match shape
    case SurfaceIdShape => 64
    case HandleShape => 32
    case ProfileIdShape => 96
  }

  /** A bounded string of a given shape. */
  function Safe(p: Platform, s: Option<Text>, shape: Shape): Option<Text> {
    if s.None? then None else
    var r := Bounded(p, s.value, Limit(shape));
    if r.None? || !Matches(shape, r.value) then None else r
  }

  lemma ShapesAreGraphic(shape: Shape, s: Text)
    requires Matches(shape, s)
    ensures Graphic(s) && 0 < |s| <= Limit(shape)
  {
    if shape.HandleShape? {
      forall i | 0 <= i < |s| ensures 0x21 <= s[i] <= 0x7E {
        if i < 8 { assert s[..8][i] == SURFACE[i]; }
      }
    }
  }

  // ---- URLs ----

  function Sanitize(p: Platform, url: Option<Text>): Text {
    if url.None? then BLANK else
    var candidate := Bounded(p, url.value, MAX_URL_BYTES);
    if candidate.None? || p.isBlank(candidate.value) then BLANK else
    var parsed := p.parse(candidate.value);
    if parsed.None? || !parsed.value.web || parsed.value.credentials then BLANK else
    var result := p.show(Cleaned(p, parsed.value));
    if ByteLength(result) <= MAX_URL_BYTES then result else BLANK
  }

  lemma CleanedStays(p: Platform, urls: iset<Url>, u: Url)
    requires LawfulFor(p, urls) && u in urls
    ensures var v := Cleaned(p, u); v in urls && Cleaned(p, v) == v && Clean(v.query, p.isSensitive) && v.hash == []
    ensures Cleaned(p, u).web == u.web && Cleaned(p, u).credentials == u.credentials
  {
    var v := Cleaned(p, u);
    assert Clean(p.strip(u).query, p.isSensitive);
    assert p.strip(v) == v;
  }

  lemma BlankStays(p: Platform)
    requires Lawful(p)
    ensures Sanitize(p, Some(BLANK)) == BLANK
  {
    GraphicIsBounded(p, BLANK, MAX_URL_BYTES);
  }

  /** What is kept of a URL is kept again. */
  lemma SanitizeIsIdempotent(p: Platform, url: Option<Text>)
    requires Lawful(p)
    ensures Sanitize(p, Some(Sanitize(p, url))) == Sanitize(p, url)
  {
    BlankStays(p);
    if Sanitize(p, url) != BLANK {
      var parsed := p.parse(Bounded(p, url.value, MAX_URL_BYTES).value).value;
      var kept := Cleaned(p, parsed);
      var result := p.show(kept);
      var urls :| LawfulFor(p, urls);
      CleanedStays(p, urls, parsed);
      GraphicBytes(result);
      GraphicIsBounded(p, result, MAX_URL_BYTES);
      assert p.parse(result) == Some(kept);
    }
  }

  /** A sanitised URL is blank, or the written form of a web URL without credentials, fragment or sensitive parameters. */
  lemma SanitizedIsSafe(p: Platform, url: Option<Text>)
    requires Lawful(p)
    ensures var r := Sanitize(p, url);
            r == BLANK || exists u: Url ::
              r == p.show(u) && u.web && !u.credentials && u.hash == [] && Clean(u.query, p.isSensitive)
  {
    if Sanitize(p, url) != BLANK {
      var parsed := p.parse(Bounded(p, url.value, MAX_URL_BYTES).value).value;
      var urls :| LawfulFor(p, urls);
      CleanedStays(p, urls, parsed);
      var u := Cleaned(p, parsed);
      assert Sanitize(p, url) == p.show(u);
    }
  }

  // ---- records ----

  datatype Profile = Isolated | Authenticated(profileId: Text)

  datatype Record = Record(
    surfaceId: Text, handle: Text, owner: Text, profile: Profile, url: Text, order: int, zoom: real)

  /** A profile as it comes in; one that is neither of the two kinds is refused. */
  datatype ProfileInput = IsolatedInput | AuthenticatedInput(profileId: Text, optIn: bool) | OtherInput

  /** A record as it comes in; nothing stands for a field of the wrong type. */
  datatype Input =
    | NotAnObject
    | Input(surfaceId: Option<Text>, handle: Option<Text>, owner: Option<Text>, profile: ProfileInput,
            url: Option<Text>, order: Option<int>, zoom: Option<real>)

  function SafeProfile(p: Platform, input: ProfileInput): Option<Profile> {
    match input
    case IsolatedInput => Some(Isolated)
    case AuthenticatedInput(profileId, optIn) =>
      var id := Safe(p, Some(profileId), ProfileIdShape);
      if !optIn || id.None? then None else Some(Authenticated(id.value))
    case OtherInput => None
  }

  predicate InRange(order: Option<int>, zoom: Option<real>) {
    order.Some? && 0 <= order.value <= MAX_ORDER && zoom.Some? && 0.25 <= zoom.value <= 5.0
  }

  function Normalize(p: Platform, input: Input): Option<Record> {
    if input.NotAnObject? then None else
    var surfaceId, handle := Safe(p, input.surfaceId, SurfaceIdShape), Safe(p, input.handle, HandleShape);
    var profile := SafeProfile(p, input.profile);
    if surfaceId.None? || handle.None? || input.owner.None? || !p.isOwner(input.owner.value) || profile.None? then None
    else if !InRange(input.order, input.zoom) then None
    else
      Some(Record(surfaceId.value, handle.value, input.owner.value, profile.value, Sanitize(p, input.url),
                  input.order.value, input.zoom.value))
  }

  function AsProfileInput(profile: Profile): ProfileInput {
    match profile
    case Isolated => IsolatedInput
    case Authenticated(profileId) => AuthenticatedInput(profileId, true)
  }

  /** A record as it is read back. */
  function AsInput(r: Record): Input {
    Input(Some(r.surfaceId), Some(r.handle), Some(r.owner), AsProfileInput(r.profile), Some(r.url), Some(r.order), Some(r.zoom))
  }

  lemma SafeIsIdempotent(p: Platform, s: Option<Text>, shape: Shape)
    requires Lawful(p) && Safe(p, s, shape).Some?
    ensures Safe(p, Safe(p, s, shape), shape) == Safe(p, s, shape)
  {
    var r := Safe(p, s, shape).value;
    ShapesAreGraphic(shape, r);
    GraphicIsBounded(p, r, Limit(shape));
  }

  lemma ProfileIsIdempotent(p: Platform, input: ProfileInput)
    requires Lawful(p) && SafeProfile(p, input).Some?
    ensures SafeProfile(p, AsProfileInput(SafeProfile(p, input).value)) == SafeProfile(p, input)
  {
    if input.AuthenticatedInput? { SafeIsIdempotent(p, Some(input.profileId), ProfileIdShape); }
  }

  /** A normalised record is normalised to itself. */
  lemma NormalizeIsIdempotent(p: Platform, input: Input)
    requires Lawful(p) && Normalize(p, input).Some?
    ensures Normalize(p, AsInput(Normalize(p, input).value)) == Normalize(p, input)
  {
    SafeIsIdempotent(p, input.surfaceId, SurfaceIdShape);
    SafeIsIdempotent(p, input.handle, HandleShape);
    ProfileIsIdempotent(p, input.profile);
    SanitizeIsIdempotent(p, input.url);
  }

  // ---- a lawful platform ----

  const HOME: Url := Url(true, false, [], [], [])

  /** http://a/ */
  const HOME_TEXT: Text := Ascii("http://a/")

  /** A platform that knows one web URL. */
  function SmallPlatform(): Platform {
    Platform((s: Text) => s, (s: Text) => s == BLANK, (s: Text) => if s == HOME_TEXT then Some(HOME) else None,
             (u: Url) => HOME_TEXT, (u: Url) => u, (s: Text) => false, (s: Text) => true)
  }

  lemma SmallPlatformIsLawfulFor(p: Platform, urls: iset<Url>)
    requires p == SmallPlatform() && urls == iset{HOME}
    ensures LawfulFor(p, urls)
  {
    assert |HOME_TEXT| == 9 && |BLANK| == 11;
    assert HOME.(hash := []) == HOME;
  }

  /** The laws can be met together, with a URL that survives sanitising. */
  lemma SmallPlatformIsLawful()
    ensures Lawful(SmallPlatform()) && Sanitize(SmallPlatform(), Some(HOME_TEXT)) == HOME_TEXT
  {
    var p := SmallPlatform();
    SmallPlatformIsLawfulFor(p, iset{HOME});
    HomeSurvives(p, HOME_TEXT);
  }

  lemma HomeSurvives(p: Platform, text: Text)
    requires p == SmallPlatform() && Lawful(p) && text == HOME_TEXT
    ensures Sanitize(p, Some(text)) == text
  {
    assert |text| == 9 && |BLANK| == 11 && Graphic(text);
    GraphicBytes(text);
    GraphicIsBounded(p, text, MAX_URL_BYTES);
  }
}
