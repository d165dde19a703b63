/**
 * The terms and policies configuration (frontend/app/config/terms.ts): the
 * document list, the documents each role must accept, where each document
 * is served from, and the keyed map.
 */
module Terms {
  import opened Wrappers
  import opened Text

  datatype Extension = Txt | Pdf {
    function Name(): string {
      match this
      case Txt => "txt"
      case Pdf => "pdf"
    }
  }

  datatype Category = CoreTerms | PrivacyTerms | StudentTerms | CompanyTerms | OAuthTerms | OtherTerms

  datatype TermsDocument = TermsDocument(
    key: string, title: string, baseName: string, src: Option<string>,
    preferredExtension: Option<Extension>, required: bool, version: Option<string>,
    category: Option<Category>, description: Option<string>)

  datatype UserRole = Viewer | Student | Company | Admin

  const TERMS_DOCUMENTS: seq<TermsDocument> := [
    TermsDocument("ku-work-core-terms", "KU Work Core Terms of Use and Privacy Notice", "ku_work_core_terms",
                  None, Some(Pdf), true, Some("1.0.0"), Some(CoreTerms),
                  Some("Global baseline terms & privacy notice applying to all user roles.")),
    TermsDocument("ku-work-student-terms", "Student Terms Supplement", "ku_work_terms",
                  None, Some(Pdf), true, Some("1.0.0"), Some(StudentTerms),
                  Some("Role-specific student/KU supplement to the core terms & privacy notice.")),
    TermsDocument("company-terms", "Company Terms Supplement", "company_terms",
                  None, Some(Pdf), true, Some("1.0.0"), Some(CompanyTerms),
                  Some("Company-specific supplement detailing obligations & candidate data handling.")),
    TermsDocument("privacy-policy", "Privacy Policy", "privacy_policy",
                  None, Some(Pdf), true, Some("1.0.0"), Some(PrivacyTerms),
                  Some("Concise overview; full legal detail in Core & supplements.")),
    TermsDocument("google-oauth-notice", "Google Sign‑In Notice & Consent", "google_oauth_notice",
                  None, Some(Pdf), true, Some("1.0.0"), Some(OAuthTerms),
                  Some("Explains Google OAuth data exchange & consent for viewer pre-registration."))
  ]

  /** The keys each role must accept. */
  function RoleRequiredDocKeys(role: UserRole): seq<string> {
    match role
    case Viewer => ["ku-work-core-terms", "privacy-policy", "google-oauth-notice"]
    case Student => ["ku-work-core-terms", "ku-work-student-terms"]
    case Company => ["ku-work-core-terms", "privacy-policy", "company-terms"]
    case Admin => ["ku-work-core-terms", "privacy-policy"]
  }

  function KeySet(keys: seq<string>): set<string> {
    set k | k in keys
  }

  /** `a` is `b` with some elements dropped, order kept. */
  predicate IsSubsequence<T(==)>(a: seq<T>, b: seq<T>)
    decreases |b|
  {
    a == [] || (b != [] && ((a[0] == b[0] && IsSubsequence(a[1..], b[1..])) || IsSubsequence(a, b[1..])))
  }

  /** `Array.prototype.filter`. */
  function Filter(docs: seq<TermsDocument>, keep: TermsDocument -> bool): (r: seq<TermsDocument>)
    ensures forall d :: d in r <==> d in docs && keep(d)
    ensures IsSubsequence(r, docs)
    decreases |docs|
  {
    if docs == [] then []
    else
      var rest := Filter(docs[1..], keep);
      assert docs == [docs[0]] + docs[1..];
      if keep(docs[0]) then
        assert ([docs[0]] + rest)[1..] == rest;
        [docs[0]] + rest
      else
        assert rest == [] || rest[0] in docs[1..];
        rest
  }

  /** `getDocumentByKey`: the first document with the key. */
  function GetDocumentByKey(docs: seq<TermsDocument>, key: string): (r: Option<TermsDocument>)
    ensures r.Some? ==> r.value in docs && r.value.key == key
    ensures r.None? ==> forall d :: d in docs ==> d.key != key
    decreases |docs|
  {
    if docs == [] then None
    else if docs[0].key == key then Some(docs[0])
    else
      assert docs == [docs[0]] + docs[1..];
      GetDocumentByKey(docs[1..], key)
  }

  /** `getRequiredDocumentsForRole`: the documents whose keys the role must accept, in list order. */
  function GetRequiredDocumentsForRole(docs: seq<TermsDocument>, role: UserRole): (r: seq<TermsDocument>)
    ensures forall d :: d in r <==> d in docs && d.key in RoleRequiredDocKeys(role)
    ensures IsSubsequence(r, docs)
  {
    var keys := KeySet(RoleRequiredDocKeys(role));
    Filter(docs, (d: TermsDocument) => d.key in keys)
  }

  /** `getDocumentsForRole`: the required documents, then the optional ones not on the role's list. */
  function GetDocumentsForRole(docs: seq<TermsDocument>, role: UserRole): (r: seq<TermsDocument>)
    ensures var required := GetRequiredDocumentsForRole(docs, role);
            |required| <= |r| && r[..|required|] == required
            && (forall d :: d in r[|required|..] <==>
                  d in docs && d.key !in RoleRequiredDocKeys(role) && !d.required)
            && IsSubsequence(r[|required|..], docs)
  {
    var keys := KeySet(RoleRequiredDocKeys(role));
    var required := Filter(docs, (d: TermsDocument) => d.key in keys);
    var optional := Filter(docs, (d: TermsDocument) => d.key !in keys && !d.required);
    assert (required + optional)[|required|..] == optional;
    required + optional
  }

  /** A filter that keeps nothing it is given is empty. */
  lemma {:induction false} FilterKeepsNone(docs: seq<TermsDocument>, keep: TermsDocument -> bool)
    requires forall i :: 0 <= i < |docs| ==> !keep(docs[i])
    ensures Filter(docs, keep) == []
    decreases |docs|
  {
    if docs != [] {
      FilterKeepsNone(docs[1..], keep);
    }
  }

  /** When every document is required, no role is shown optional ones. */
  lemma NoOptionalWhenAllRequired(docs: seq<TermsDocument>, role: UserRole)
    requires forall i :: 0 <= i < |docs| ==> docs[i].required
    ensures GetDocumentsForRole(docs, role) == GetRequiredDocumentsForRole(docs, role)
  {
    var keys := KeySet(RoleRequiredDocKeys(role));
    FilterKeepsNone(docs, (d: TermsDocument) => d.key !in keys && !d.required);
  }

  /** Every shipped document is required, so no role sees optional ones. */
  lemma ShippedDocumentsAllRequired(role: UserRole)
    ensures GetDocumentsForRole(TERMS_DOCUMENTS, role) == GetRequiredDocumentsForRole(TERMS_DOCUMENTS, role)
  {
    var docs := TERMS_DOCUMENTS;
    assert docs[0].required && docs[1].required && docs[2].required && docs[3].required && docs[4].required;
    NoOptionalWhenAllRequired(docs, role);
  }

  /** A set `src` wins; otherwise the path under /terms/ with the preferred extension or txt. */
  function BuildDocumentSrc(doc: TermsDocument): (r: string)
    ensures doc.src.Some? && doc.src.value != "" ==> r == doc.src.value
    ensures doc.src.None? || doc.src.value == "" ==>
              r == "/terms/" + doc.baseName + "." + (if doc.preferredExtension == Some(Pdf) then "pdf" else "txt")
  {
    if doc.src.Some? && doc.src.value != "" then doc.src.value
    else
      var ext := if doc.preferredExtension.Some? then doc.preferredExtension.value else Txt;
      "/terms/" + doc.baseName + "." + ext.Name()
  }

  function IsPdf(doc: TermsDocument): bool {
    EndsWith(ToLower(BuildDocumentSrc(doc)), ".pdf")
  }

  /** Without an explicit `src`, a document is a PDF exactly when PDF is its preferred extension. */
  lemma IsPdfIffPreferred(doc: TermsDocument)
    requires doc.src.None? || doc.src.value == ""
    ensures IsPdf(doc) <==> doc.preferredExtension == Some(Pdf)
  {
    var s := BuildDocumentSrc(doc);
    var tail := if doc.preferredExtension == Some(Pdf) then ".pdf" else ".txt";
    assert s[|s| - 4..] == tail;
    var low := ToLower(s);
    assert low[|low| - 4..] == tail by {
      forall i | 0 <= i < 4 ensures low[|low| - 4 + i] == tail[i] {
        assert low[|low| - 4 + i] == LowerChar(s[|s| - 4 + i]);
      }
    }
  }

  /** `TERMS_MAP`: the documents folded into a map, a later key overwriting an earlier one. */
  function KeyedMap(docs: seq<TermsDocument>, acc: map<string, TermsDocument>): map<string, TermsDocument>
    decreases |docs|
  {
    if docs == [] then acc else KeyedMap(docs[1..], acc[docs[0].key := docs[0]])
  }

  predicate DistinctKeys(docs: seq<TermsDocument>) {
    forall i, j :: 0 <= i < j < |docs| ==> docs[i].key != docs[j].key
  }

  /** With distinct keys, the map sends each document's key to that document and keeps other entries. */
  lemma {:induction false} KeyedMapFinds(docs: seq<TermsDocument>, acc: map<string, TermsDocument>)
    requires DistinctKeys(docs)
    ensures forall d :: d in docs ==> d.key in KeyedMap(docs, acc) && KeyedMap(docs, acc)[d.key] == d
    ensures forall k :: k in acc && (forall d :: d in docs ==> d.key != k) ==>
              k in KeyedMap(docs, acc) && KeyedMap(docs, acc)[k] == acc[k]
    decreases |docs|
  {
    if docs != [] {
      var rest := docs[1..];
      var acc2 := acc[docs[0].key := docs[0]];
      assert DistinctKeys(rest) by {
        forall i, j | 0 <= i < j < |rest| ensures rest[i].key != rest[j].key {
          assert rest[i] == docs[i + 1] && rest[j] == docs[j + 1];
        }
      }
      KeyedMapFinds(rest, acc2);
      forall d | d in rest ensures d.key != docs[0].key {
        var j :| 0 <= j < |rest| && rest[j] == d;
        assert docs[j + 1] == d;
      }
      assert docs == [docs[0]] + rest;
    }
  }

  lemma ShippedKeysDistinct()
    ensures DistinctKeys(TERMS_DOCUMENTS)
  {
  }

  /** `TERMS_MAP[d.key] == d` for every shipped document, and `getDocumentByKey` agrees with it. */
  lemma TermsMapAgreesWithLookup(d: TermsDocument)
    requires d in TERMS_DOCUMENTS
    ensures KeyedMap(TERMS_DOCUMENTS, map[])[d.key] == d
    ensures GetDocumentByKey(TERMS_DOCUMENTS, d.key) == Some(d)
  {
    ShippedKeysDistinct();
    KeyedMapFinds(TERMS_DOCUMENTS, map[]);
    var found := GetDocumentByKey(TERMS_DOCUMENTS, d.key).value;
    var i :| 0 <= i < |TERMS_DOCUMENTS| && TERMS_DOCUMENTS[i] == d;
    var j :| 0 <= j < |TERMS_DOCUMENTS| && TERMS_DOCUMENTS[j] == found;
    assert i == j;
  }
}
