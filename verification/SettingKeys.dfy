// How an instance's settings are keyed (src/lib/arr-instances.ts, lines 46-92).
module SettingKeys {
  datatype Service = Radarr | Sonarr

  datatype Field =
    | Url | ApiKey | RootFolder | QualityProfileId
    | WebhookSecret | MinimumAvailability | LanguageProfileId | ExternalUrl

  function ServiceName(s: Service): string { if s.Radarr? then "radarr" else "sonarr" }

  function FieldName(f: Field): string {
    match f
    case Url => "Url"
    case ApiKey => "ApiKey"
    case RootFolder => "RootFolder"
    case QualityProfileId => "QualityProfileId"
    case WebhookSecret => "WebhookSecret"
    case MinimumAvailability => "MinimumAvailability"
    case LanguageProfileId => "LanguageProfileId"
    case ExternalUrl => "ExternalUrl"
  }

  predicate LowerLetter(c: char) { 'a' <= c <= 'z' }

  predicate Digit(c: char) { '0' <= c <= '9' }

  // A lower-case letter, then at most 23 more of them or digits.
  predicate NamedSlug(slug: string) {
    && 1 <= |slug| <= 24 && LowerLetter(slug[0])
    && forall i :: 1 <= i < |slug| ==> LowerLetter(slug[i]) || Digit(slug[i])
  }

  predicate IsValidInstanceSlug(slug: string) { slug == "" || slug == "4k" || (slug != "hd" && NamedSlug(slug)) }

  function Upper(c: char): char { if LowerLetter(c) then (c as int - 'a' as int + 'A' as int) as char else c }

  function InstanceKeySegment(slug: string): string { if slug == "" then "" else [Upper(slug[0])] + slug[1..] }

  function ArrSettingKey(s: Service, slug: string, f: Field): string {
    ServiceName(s) + InstanceKeySegment(slug) + FieldName(f)
  }

  // Keys read like the names of fields; the legacy slug keeps its own.
  lemma KeysReadSo()
    ensures ArrSettingKey(Radarr, "", Url) == "radarrUrl" && ArrSettingKey(Radarr, "4k", Url) == "radarr4kUrl"
    ensures ArrSettingKey(Radarr, "anime", Url) == "radarrAnimeUrl"
  {
    assert InstanceKeySegment("4k") == "4k" && InstanceKeySegment("anime") == "Anime";
  }

  // ── no two settings share a key, but for one pair ──────────────────────────

  lemma SegmentsDiffer(a: string, b: string)
    requires IsValidInstanceSlug(a) && IsValidInstanceSlug(b) && InstanceKeySegment(a) == InstanceKeySegment(b)
    ensures a == b
  {
    if a != "" && b != "" {
      assert InstanceKeySegment(a)[1..] == a[1..] && InstanceKeySegment(b)[1..] == b[1..];
      assert InstanceKeySegment(a)[0] == InstanceKeySegment(b)[0];
      assert a == [a[0]] + a[1..] && b == [b[0]] + b[1..];
    }
  }

  // Of all the field names only "Url" ends another.
  function LastChar(f: Field): char {
    match f
    case Url => 'l'
    case ApiKey => 'y'
    case RootFolder => 'r'
    case QualityProfileId => 'd'
    case WebhookSecret => 't'
    case MinimumAvailability => 'y'
    case LanguageProfileId => 'd'
    case ExternalUrl => 'l'
  }

  lemma LastCharIs(f: Field)
    ensures FieldName(f) != "" && FieldName(f)[|FieldName(f)| - 1] == LastChar(f)
  {
  }

  lemma EndsDiffer(x: string, y: string)
    requires 0 < |y| <= |x| && x[|x| - 1] != y[|y| - 1]
    ensures x[|x| - |y|..] != y
  {
    assert x[|x| - |y|..][|y| - 1] == x[|x| - 1];
  }

  lemma TwoAlikeDiffer()
    ensures var x, y := FieldName(MinimumAvailability), FieldName(ApiKey);
      x[|x| - |y|..] != y
    ensures var x, y := FieldName(LanguageProfileId), FieldName(QualityProfileId);
      x[|x| - |y|..] != y
  {
    assert FieldName(MinimumAvailability)[13..][4] == 't';
    assert FieldName(LanguageProfileId)[1..][0] == 'a';
  }

  lemma NoOtherFieldEndsAnother(f: Field, g: Field)
    requires f != g && |FieldName(g)| <= |FieldName(f)| && !(f.ExternalUrl? && g.Url?)
    ensures FieldName(f)[|FieldName(f)| - |FieldName(g)|..] != FieldName(g)
  {
    LastCharIs(f);
    LastCharIs(g);
    if LastChar(f) == LastChar(g) { TwoAlikeDiffer(); } else { EndsDiffer(FieldName(f), FieldName(g)); }
  }

  // Past its first character no segment has a capital.
  lemma NoCapitalInside(slug: string, i: nat)
    requires IsValidInstanceSlug(slug) && 1 <= i < |InstanceKeySegment(slug)|
    ensures InstanceKeySegment(slug)[i] != 'E'
  {
    assert InstanceKeySegment(slug)[i] == slug[i];
  }

  // Where two sums agree, the shorter ending ends the longer one.
  lemma EndsWith(s: string, x: string, t: string, y: string)
    requires s + x == t + y && |y| <= |x|
    ensures x[|x| - |y|..] == y && t == s + x[..|x| - |y|]
  {
    var n := |x| - |y|;
    assert (s + x)[|s| + n..] == x[n..] && (t + y)[|t|..] == y;
    assert (s + x)[..|s| + n] == s + x[..n] && (t + y)[..|t|] == t;
  }

  lemma LongerFieldIsExternal(a: string, f: Field, b: string, g: Field)
    requires IsValidInstanceSlug(a) && IsValidInstanceSlug(b) && f != g && |FieldName(g)| <= |FieldName(f)|
    requires InstanceKeySegment(a) + FieldName(f) == InstanceKeySegment(b) + FieldName(g)
    ensures a == "" && f.ExternalUrl? && b == "external" && g.Url?
  {
    EndsWith(InstanceKeySegment(a), FieldName(f), InstanceKeySegment(b), FieldName(g));
    if !(f.ExternalUrl? && g.Url?) { NoOtherFieldEndsAnother(f, g); }
    assert "ExternalUrl"[..8] == "External";
    OnlyExternalEndsSo(a, b);
  }

  lemma OnlyExternalEndsSo(a: string, b: string)
    requires IsValidInstanceSlug(a) && IsValidInstanceSlug(b)
      && InstanceKeySegment(b) == InstanceKeySegment(a) + "External"
    ensures a == "" && b == "external"
  {
    if a != "" {
      assert InstanceKeySegment(b)[|a|] == 'E';
      NoCapitalInside(b, |a|);
    }
    assert InstanceKeySegment("external") == "External";
    SegmentsDiffer(b, "external");
  }

  predicate TheCollision(a: string, f: Field, b: string, g: Field) {
    a == "" && f.ExternalUrl? && b == "external" && g.Url?
  }

  lemma SegmentsAndFields(a: string, f: Field, b: string, g: Field)
    requires IsValidInstanceSlug(a) && IsValidInstanceSlug(b)
    requires InstanceKeySegment(a) + FieldName(f) == InstanceKeySegment(b) + FieldName(g)
    ensures (a == b && f == g) || TheCollision(a, f, b, g) || TheCollision(b, g, a, f)
  {
    if f == g {
      var s, t, x := InstanceKeySegment(a), InstanceKeySegment(b), FieldName(f);
      assert (s + x)[..|s|] == s && (t + x)[..|t|] == t;
      SegmentsDiffer(a, b);
    } else if |FieldName(g)| <= |FieldName(f)| {
      LongerFieldIsExternal(a, f, b, g);
    } else {
      LongerFieldIsExternal(b, g, a, f);
    }
  }

  lemma EqualSplits(x: string, p: string, y: string, q: string)
    requires |x| == |y| && x + p == y + q
    ensures x == y && p == q
  {
    assert (x + p)[..|x|] == x && (y + q)[..|y|] == y;
    assert (x + p)[|x|..] == p && (y + q)[|y|..] == q;
  }

  lemma Regroup(x: string, s: string, f: string)
    ensures x + s + f == x + (s + f)
  {
  }

  lemma NamesDiffer(s: Service, t: Service)
    requires ServiceName(s) == ServiceName(t)
    ensures s == t
  {
    assert ServiceName(s)[0] == ServiceName(t)[0];
  }

  lemma KeysSplit(s: Service, a: string, f: Field, t: Service, b: string, g: Field)
    requires ArrSettingKey(s, a, f) == ArrSettingKey(t, b, g)
    ensures s == t && InstanceKeySegment(a) + FieldName(f) == InstanceKeySegment(b) + FieldName(g)
  {
    Regroup(ServiceName(s), InstanceKeySegment(a), FieldName(f));
    Regroup(ServiceName(t), InstanceKeySegment(b), FieldName(g));
    EqualSplits(ServiceName(s), InstanceKeySegment(a) + FieldName(f), ServiceName(t),
      InstanceKeySegment(b) + FieldName(g));
    NamesDiffer(s, t);
  }

  lemma TheCollisionCollides(s: Service)
    ensures ArrSettingKey(s, "", ExternalUrl) == ArrSettingKey(s, "external", Url)
  {
    assert InstanceKeySegment("external") == "External";
    assert ServiceName(s) + "" + "ExternalUrl" == ServiceName(s) + "External" + "Url";
  }

  // Exactly one pair of settings of a service shares a key: the default instance's
  // ExternalUrl and the Url of an instance called "external".
  lemma KeysCollideExactly(s: Service, a: string, f: Field, t: Service, b: string, g: Field)
    requires IsValidInstanceSlug(a) && IsValidInstanceSlug(b)
    ensures ArrSettingKey(s, a, f) == ArrSettingKey(t, b, g) <==>
      s == t && ((a == b && f == g) || TheCollision(a, f, b, g) || TheCollision(b, g, a, f))
  {
    TheCollisionCollides(s);
    if ArrSettingKey(s, a, f) == ArrSettingKey(t, b, g) {
      KeysSplit(s, a, f, t, b, g);
      SegmentsAndFields(a, f, b, g);
    }
  }

  // The slug of the colliding pair is one an instance may have, so keys tell settings
  // apart exactly among the instances not called so.
  lemma ExternalIsAValidSlug()
    ensures IsValidInstanceSlug("external") && !IsValidInstanceSlug("hd")
    ensures ArrSettingKey(Radarr, "", ExternalUrl) == ArrSettingKey(Radarr, "external", Url)
    ensures ArrSettingKey(Sonarr, "", ExternalUrl) == ArrSettingKey(Sonarr, "external", Url)
  {
    TheCollisionCollides(Radarr);
    TheCollisionCollides(Sonarr);
  }

  lemma KeysDifferWithoutExternal(s: Service, a: string, f: Field, t: Service, b: string, g: Field)
    requires IsValidInstanceSlug(a) && IsValidInstanceSlug(b) && a != "external" && b != "external"
    ensures ArrSettingKey(s, a, f) == ArrSettingKey(t, b, g) <==> s == t && a == b && f == g
  {
    NotTheCollision(a, f, b, g);
    KeysCollideExactly(s, a, f, t, b, g);
  }

  lemma NotTheCollision(a: string, f: Field, b: string, g: Field)
    requires a != "external" && b != "external"
    ensures !TheCollision(a, f, b, g) && !TheCollision(b, g, a, f)
  {
  }
}
