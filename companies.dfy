/**
 * Companies (convex/companies.ts): the slug rule and `createCompany`, which stores the
 * trimmed name under the slug, or under the slug with a base-36 timestamp suffix when a
 * company already holds that slug.
 */
module Companies {
  import opened Wrappers
  import opened Store
  import opened Text
  import opened Seqs

  /** The characters `/[^a-z0-9-]/g` keeps. */
  predicate IsSlugChar(c: char) {
    ('a' <= c <= 'z') || ('0' <= c <= '9') || c == '-'
  }

  function KeepSlugChar(): char -> bool {
    (c: char) => IsSlugChar(c)
  }

  /** Only slug characters. */
  predicate IsSlug(s: string) {
    forall i :: 0 <= i < |s| ==> IsSlugChar(s[i])
  }

  /** `slugFromName`: trim, lower-case, each run of spaces to one '-', then drop every other character. */
  function SlugFromName(name: string): (r: string)
    ensures IsSlug(r)
    ensures |r| <= |name|
  {
    var lowered := ToLower(Trim(name));
    TrimSpec(name);
    Filter(ReplaceSpaceRuns(lowered, '-'), KeepSlugChar())
  }

  /** A string made of slug characters has no space and no upper-case letter. */
  lemma SlugPlain(s: string)
    requires IsSlug(s)
    ensures NoSpace(s) && ToLower(s) == s
  {
    ToLowerSpec(s);
  }

  /** A slug is its own slug: applying the rule twice is applying it once. */
  lemma SlugIdempotent(name: string)
    ensures SlugFromName(SlugFromName(name)) == SlugFromName(name)
  {
    var s := SlugFromName(name);
    SlugPlain(s);
    TrimNoSpace(s);
    ReplaceNoSpace(s, '-');
    FilterAll(s, KeepSlugChar());
  }

  /**
   * Spaces around a name are dropped, and a run of spaces between two words becomes a
   * single '-': "  acme   cold  " and "acme cold" have the same slug "acme-cold".
   */
  lemma SlugSpaces(before: string, a: string, gap: string, b: string, after: string)
    requires forall i :: 0 <= i < |before| ==> IsSpace(before[i])
    requires forall i :: 0 <= i < |after| ==> IsSpace(after[i])
    requires gap != [] && forall i :: 0 <= i < |gap| ==> IsSpace(gap[i])
    requires a != [] && b != [] && IsSlug(a) && IsSlug(b)
    ensures SlugFromName(before + a + gap + b + after) == a + "-" + b
  {
    SlugWordsTrimmed(before, a, gap, b, after);
    SlugWordsLower(a, gap, b);
    SlugWordsJoined(a, gap, b);
  }

  lemma SlugWordsJoined(a: string, gap: string, b: string)
    requires gap != [] && forall i :: 0 <= i < |gap| ==> IsSpace(gap[i])
    requires IsSlug(a) && IsSlug(b)
    ensures Filter(ReplaceSpaceRuns(a + gap + b, '-'), KeepSlugChar()) == a + "-" + b
  {
    var joined := a + "-" + b;
    SlugPlain(a);
    SlugPlain(b);
    ReplaceBetweenWords(a, gap, b, '-');
    assert IsSlug(joined);
    FilterAll(joined, KeepSlugChar());
  }

  lemma SlugWordsTrimmed(before: string, a: string, gap: string, b: string, after: string)
    requires forall i :: 0 <= i < |before| ==> IsSpace(before[i])
    requires forall i :: 0 <= i < |after| ==> IsSpace(after[i])
    requires a != [] && b != [] && IsSlug(a) && IsSlug(b)
    ensures Trim(before + a + gap + b + after) == a + gap + b
  {
    var w := a + gap + b;
    SlugCharNotSpace(a[0]);
    SlugCharNotSpace(b[|b| - 1]);
    assert w[0] == a[0] && w[|w| - 1] == b[|b| - 1];
    assert before + a + gap + b + after == before + w + after;
    TrimPadded(before, w, after);
  }

  lemma SlugWordsLower(a: string, gap: string, b: string)
    requires forall i :: 0 <= i < |gap| ==> IsSpace(gap[i])
    requires IsSlug(a) && IsSlug(b)
    ensures ToLower(a + gap + b) == a + gap + b
  {
    var w := a + gap + b;
    forall i | 0 <= i < |w| ensures LowerChar(w[i]) == w[i] {
      if i < |a| {
        assert w[i] == a[i];
      } else if i < |a| + |gap| {
        assert w[i] == gap[i - |a|];
      } else {
        assert w[i] == b[i - |a| - |gap|];
      }
    }
  }

  /** No slug character is a space. */
  lemma SlugCharNotSpace(c: char)
    requires IsSlugChar(c)
    ensures !IsSpace(c)
  {
  }

  /** A single word without spaces whose lower-case form is all slug characters has that form as its slug. */
  lemma SlugOfWord(w: string)
    requires NoSpace(w) && IsSlug(ToLower(w))
    ensures SlugFromName(w) == ToLower(w)
  {
    var lowered := ToLower(w);
    TrimNoSpace(w);
    SlugPlain(lowered);
    ReplaceNoSpace(lowered, '-');
    FilterAll(lowered, KeepSlugChar());
  }

  /** `slugFromName(name) || "company"`. */
  function SlugOrDefault(name: string): (r: string)
    ensures r != [] && IsSlug(r)
    ensures SlugFromName(name) != [] ==> r == SlugFromName(name)
    ensures SlugFromName(name) == [] ==> r == "company"
  {
    var slug := SlugFromName(name);
    if slug != [] then slug else "company"
  }

  // ---------------------------------------------------------------------------
  // Base 36
  // ---------------------------------------------------------------------------

  function Digit36(d: nat): char
    requires d < 36
  {
    if d < 10 then ('0' as int + d) as char else ('a' as int + d - 10) as char
  }

  /** `n.toString(36)` for a non-negative integer: the shortest base-36 numeral, lower-case. */
  function Base36(n: nat): (r: string)
    ensures r != []
  {
    if n < 36 then [Digit36(n)] else Base36(n / 36) + [Digit36(n % 36)]
  }

  /** The numeral is made of digits and lower-case letters, so it is slug text without a '-'. */
  lemma {:induction false} Base36Slug(n: nat)
    ensures IsSlug(Base36(n)) && '-' !in Base36(n)
  {
    if n >= 36 {
      Base36Slug(n / 36);
    }
  }

  function DigitValue(c: char): nat {
    if '0' <= c <= '9' then c as int - '0' as int
    else if 'a' <= c <= 'z' then c as int - 'a' as int + 10
    else 0
  }

  /** The number a base-36 numeral denotes. */
  function Base36Value(s: string): nat {
    if s == [] then 0 else Base36Value(s[..|s| - 1]) * 36 + DigitValue(s[|s| - 1])
  }

  /** Reading the numeral back gives the number: distinct times give distinct suffixes. */
  lemma {:induction false} Base36RoundTrip(n: nat)
    ensures Base36Value(Base36(n)) == n
  {
    if n >= 36 {
      Base36RoundTrip(n / 36);
      var s := Base36(n);
      assert s[..|s| - 1] == Base36(n / 36);
    }
  }

  // ---------------------------------------------------------------------------
  // createCompany
  // ---------------------------------------------------------------------------

  /** `withIndex("by_slug", q => q.eq("slug", slug)).first()`: whether some company holds the slug. */
  predicate SlugTaken(companies: seq<Doc<CompanyRow>>, slug: string) {
    exists i :: 0 <= i < |companies| && companies[i].row.slug == slug
  }

  /** The slug `createCompany` stores; the suffixed form is not looked up again. */
  function StoredSlug(companies: seq<Doc<CompanyRow>>, name: string, now: nat): (r: string)
    ensures IsSlug(r) && r != []
  {
    var slug := SlugOrDefault(name);
    Base36Slug(now);
    if SlugTaken(companies, slug) then slug + "-" + Base36(now) else slug
  }

  /** A free slug is stored as it is, so it stays unique; a taken one gets the suffix. */
  lemma StoredSlugCases(companies: seq<Doc<CompanyRow>>, name: string, now: nat)
    ensures !SlugTaken(companies, SlugOrDefault(name)) ==>
      StoredSlug(companies, name, now) == SlugOrDefault(name) && !SlugTaken(companies, StoredSlug(companies, name, now))
    ensures SlugTaken(companies, SlugOrDefault(name)) ==>
      var r := StoredSlug(companies, name, now);
      && |r| > |SlugOrDefault(name)| + 1
      && r[..|SlugOrDefault(name)| + 1] == SlugOrDefault(name) + "-"
      && Base36Value(r[|SlugOrDefault(name)| + 1..]) == now
  {
    if SlugTaken(companies, SlugOrDefault(name)) {
      var slug := SlugOrDefault(name);
      var r := StoredSlug(companies, name, now);
      assert r[..|slug| + 1] == slug + "-";
      assert r[|slug| + 1..] == Base36(now);
      Base36RoundTrip(now);
    }
  }

  /**
   * The suffixed slug is not checked: when a name's slug and the slug with the suffix of the
   * current time are both taken (say "acme" and "acme-" followed by the base-36 time), a new
   * company of that name is stored under a slug that is already taken.
   */
  lemma SuffixNotRechecked(name: string, now: nat)
    ensures var slug := SlugOrDefault(name);
      var companies := [Doc(0, 0, CompanyRow(name, slug, 0)), Doc(1, 0, CompanyRow(name, slug + "-" + Base36(now), 0))];
      SlugTaken(companies, StoredSlug(companies, name, now))
  {
    var slug := SlugOrDefault(name);
    var companies := [Doc(0, 0, CompanyRow(name, slug, 0)), Doc(1, 0, CompanyRow(name, slug + "-" + Base36(now), 0))];
    assert companies[0].row.slug == slug;
    assert companies[1].row.slug == StoredSlug(companies, name, now);
  }

  /**
   * `createCompany`: one insert, with the trimmed name, the stored slug and `createdAt = now`.
   * Both `Date.now()` calls read the same `now`.
   */
  method CreateCompany(db: Db, name: string, now: nat) returns (id: Id)
    requires db.Valid()
    modifies db`companies, db`nextId
    ensures db.Valid()
    ensures id == old(db.nextId) && db.nextId == id + 1
    ensures db.companies == old(db.companies)
              + [Doc(id, now, CompanyRow(Trim(name), StoredSlug(old(db.companies), name, now), now))]
  {
    var slug := SlugOrDefault(name);
    var existing := FirstWithSlug(db.companies, slug);
    var stored := if existing.Some? then slug + "-" + Base36(now) else slug;
    assert stored == StoredSlug(db.companies, name, now);
    id := db.InsertCompany(now, CompanyRow(Trim(name), stored, now));
  }

  /** The first company holding the slug, if any. */
  function FirstWithSlug(companies: seq<Doc<CompanyRow>>, slug: string): (r: Option<Doc<CompanyRow>>)
    ensures r.Some? <==> SlugTaken(companies, slug)
    ensures r.Some? ==> r.value in companies && r.value.row.slug == slug
  {
    if companies == [] then None
    else if companies[0].row.slug == slug then Some(companies[0])
    else
      var r := FirstWithSlug(companies[1..], slug);
      assert SlugTaken(companies, slug) ==> SlugTaken(companies[1..], slug) by {
        if SlugTaken(companies, slug) {
          var i :| 0 <= i < |companies| && companies[i].row.slug == slug;
          assert companies[1..][i - 1] == companies[i];
        }
      }
      r
  }
}
