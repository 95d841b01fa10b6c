/**
 * The `onOfferCreate` trigger of the Cloud Functions (functions/index.js).
 * When a document is created in the `offers` collection it builds an
 * `updates` map field by field — cleaned title and description, a valid
 * status, the timestamps — and merges that map into the stored document.
 */
module OfferSanitizer {
  import opened JsValue
  import opened JsString

  const TitleLimit: nat := 120
  const DescriptionLimit: nat := 1000
  const ValidStatuses: seq<string> := ["pending", "accepted", "declined"]
  const DefaultStatus: string := "pending"

  /** The only fields the trigger ever writes. */
  const SanitizedKeys: set<string> := {"title", "description", "status", "createdAt", "updatedAt"}

  /**
   * `s.trim().slice(0, limit)`: the text of `s` from its first
   * non-whitespace character on, with trailing whitespace removed, cut to
   * at most `limit` characters.
   */
  function Clean(s: string, limit: nat): (r: string)
    ensures |r| <= limit && |r| <= |Trim(s)|
    ensures var i := SkipForward(s, 0); i + |r| <= |s| && r == s[i..i + |r|]
    ensures |r| == limit || r == Trim(s)
    ensures r == [] || !IsWhitespace(r[0])
  {
    SlicePrefix(Trim(s), limit)
  }

  /** Cleaning a text that already fits the limit a second time changes nothing. */
  lemma CleanIdempotentWhenShort(s: string, limit: nat)
    requires |Trim(s)| <= limit
    ensures Clean(Clean(s, limit), limit) == Clean(s, limit)
  {
    TrimIdempotent(s);
  }

  /**
   * When the cut at `limit` falls just after a whitespace character, the
   * cleaned text ends in whitespace, and cleaning it again would change it:
   * the trim runs before the cut, not after it.
   */
  lemma CleanCutCanEndInWhitespace(s: string, limit: nat)
    requires 0 < limit < |Trim(s)| && IsWhitespace(Trim(s)[limit - 1])
    ensures |Clean(s, limit)| == limit
    ensures IsWhitespace(Clean(s, limit)[limit - 1])
    ensures Clean(Clean(s, limit), limit) != Clean(s, limit)
  {
    var c := Clean(s, limit);
    assert c == Trim(s)[..limit];
    var t := Trim(c);
    assert t == [] || !IsWhitespace(t[|t| - 1]);
    assert Clean(c, limit) == t;
    assert c[|c| - 1] == Trim(s)[limit - 1];
  }

  /** `validStatuses.includes(v)`: only the three status strings qualify. */
  predicate IsValidStatus(v: Value)
    ensures IsValidStatus(v) <==> v == Str("pending") || v == Str("accepted") || v == Str("declined")
    ensures IsValidStatus(v) ==> Truthy(v)
  {
    v.Str? && v.s in ValidStatuses
  }

  /**
   * How the trigger treats a string field cut to `limit`: an update is
   * emitted exactly when the field is a string whose cleaned form differs
   * from it, and then it holds the cleaned form.
   */
  ghost predicate CleanedFieldUpdate(data: Doc, u: Doc, key: string, limit: nat) {
    var v := Get(data, key);
    && (key in u <==> v.Str? && Clean(v.s, limit) != v.s)
    && (key in u ==> u[key] == Str(Clean(v.s, limit)))
  }

  /** The `updates` map the trigger computes for the created document `data`. */
  ghost predicate IsSanitizedUpdate(data: Doc, u: Doc) {
    && CleanedFieldUpdate(data, u, "title", TitleLimit)
    && CleanedFieldUpdate(data, u, "description", DescriptionLimit)
    && ("status" in u <==> !Truthy(Get(data, "status")) || !IsValidStatus(Get(data, "status")))
    && ("status" in u ==> u["status"] == Str(DefaultStatus))
    && ("createdAt" in u <==> !Truthy(Get(data, "createdAt")))
    && ("createdAt" in u ==> u["createdAt"] == ServerTimestamp)
    && "updatedAt" in u && u["updatedAt"] == ServerTimestamp
    && u.Keys <= SanitizedKeys
  }

  /** Builds `updates` step by step, one conditional per field. */
  method ComputeUpdates(data: Doc) returns (updates: Doc)
    ensures IsSanitizedUpdate(data, updates)
  {
    updates := map[];

    var title := Get(data, "title");
    if title.Str? {
      var cleanTitle := Clean(title.s, TitleLimit);
      if cleanTitle != title.s {
        updates := updates["title" := Str(cleanTitle)];
      }
    }

    var description := Get(data, "description");
    if description.Str? {
      var cleanDesc := Clean(description.s, DescriptionLimit);
      if cleanDesc != description.s {
        updates := updates["description" := Str(cleanDesc)];
      }
    }

    var status := Get(data, "status");
    if !Truthy(status) || !IsValidStatus(status) {
      updates := updates["status" := Str(DefaultStatus)];
    }

    if !Truthy(Get(data, "createdAt")) {
      updates := updates["createdAt" := ServerTimestamp];
    }

    updates := updates["updatedAt" := ServerTimestamp];
  }

  /** Two maps that both meet the description are the same map. */
  lemma UpdatesDetermined(data: Doc, u1: Doc, u2: Doc)
    requires IsSanitizedUpdate(data, u1) && IsSanitizedUpdate(data, u2)
    ensures u1 == u2
  {
    forall k | k in SanitizedKeys
      ensures (k in u1 <==> k in u2) && (k in u1 ==> u1[k] == u2[k])
    {
    }
    assert u1.Keys == u2.Keys;
  }

  /** The status check's falsy test is subsumed: the status is reset exactly when it is not one of the three. */
  lemma StatusResetIffInvalid(data: Doc, u: Doc)
    requires IsSanitizedUpdate(data, u)
    ensures "status" in u <==> !IsValidStatus(Get(data, "status"))
  {
    var v := Get(data, "status");
    if IsValidStatus(v) {
      assert v.s != [];
    }
  }

  /**
   * What a stored text field holds after the merge: the cleaned form of a
   * string (which fits `limit`), or the original value of a non-string.
   */
  ghost predicate StoredCleaned(data: Doc, stored: Doc, key: string, limit: nat) {
    var v := Get(data, key);
    && (v.Str? ==> Get(stored, key) == Str(Clean(v.s, limit)) && |Clean(v.s, limit)| <= limit)
    && (!v.Str? ==> Get(stored, key) == v)
  }

  /** After the merge the title and description hold their cleaned forms. */
  lemma StoredTextFields(data: Doc, u: Doc)
    requires IsSanitizedUpdate(data, u)
    ensures StoredCleaned(data, data + u, "title", TitleLimit)
    ensures StoredCleaned(data, data + u, "description", DescriptionLimit)
  {
  }

  /**
   * After the merge the status is always valid; a valid incoming status —
   * `accepted` and `declined` included — is kept, anything else becomes
   * `pending`.
   */
  lemma StoredStatus(data: Doc, u: Doc)
    requires IsSanitizedUpdate(data, u)
    ensures IsValidStatus(Get(data + u, "status"))
    ensures IsValidStatus(Get(data, "status")) ==> Get(data + u, "status") == Get(data, "status")
    ensures !IsValidStatus(Get(data, "status")) ==> Get(data + u, "status") == Str(DefaultStatus)
  {
    StatusResetIffInvalid(data, u);
  }

  /**
   * After the merge `createdAt` is set, a truthy `createdAt` is never
   * overwritten, and `updatedAt` is the server-time sentinel.
   */
  lemma StoredTimestamps(data: Doc, u: Doc)
    requires IsSanitizedUpdate(data, u)
    ensures Truthy(Get(data + u, "createdAt"))
    ensures Truthy(Get(data, "createdAt")) ==> Get(data + u, "createdAt") == Get(data, "createdAt")
    ensures Get(data + u, "updatedAt") == ServerTimestamp
  {
  }

  /** The merge touches only the sanitised fields: `userId` and every other field keeps its value. */
  lemma MergeKeepsOtherFields(data: Doc, u: Doc)
    requires IsSanitizedUpdate(data, u)
    ensures forall k :: k !in SanitizedKeys ==> Get(data + u, k) == Get(data, k)
    ensures (data + u).Keys == data.Keys + u.Keys
  {
  }

  /** A document of the `offers` collection, and the merge writes applied to it. */
  class OfferDocument {
    var fields: Doc
    /** every `set(updates, { merge: true })` applied to this document, oldest first */
    var mergeWrites: seq<Doc>

    constructor (created: Doc)
      ensures fields == created && mergeWrites == []
    {
      fields := created;
      mergeWrites := [];
    }

    /**
     * The trigger body: snapshot the created document, compute `updates`
     * and, since `updates` is never empty, always merge it. `fault` stands
     * for a `set` the store rejects: the trigger then fails and the
     * document stays as created.
     */
    method OnOfferCreate(fault: bool) returns (updates: Doc)
      modifies this
      ensures IsSanitizedUpdate(old(fields), updates)
      ensures !fault ==> fields == old(fields) + updates && mergeWrites == old(mergeWrites) + [updates]
      ensures fault ==> fields == old(fields) && mergeWrites == old(mergeWrites)
    {
      var data := fields;
      updates := ComputeUpdates(data);
      assert "updatedAt" in updates;
      if |updates| > 0 && !fault {
        // set(..., { merge: true }): every value written here is a string
        // or a timestamp sentinel, so the merge replaces whole fields.
        fields := fields + updates;
        mergeWrites := mergeWrites + [updates];
      }
    }
  }
}
