/** The status normaliser of the payment proxy integration: reading a status
    or a reference id out of a provider reply whatever its shape, and the
    case-insensitive test against the provider's final-status vocabulary. */
module PaymentStatus {
  import opened JsValues

  /** One step of a property path: a named property of an object, or an
      index into an array. */
  datatype Step = Key(name: string) | Index(i: nat)

  /** Follows a path of property reads, each with optional chaining. */
  function Lookup(v: Json, path: seq<Step>): (r: Option<Json>)
    ensures path == [] ==> r == Some(v)
    decreases |path|
  {
    if path == [] then Some(v)
    else
      var next :=
        match path[0]
        case Key(k) => Field(v, k)
        case Index(i) => if v.Arr? && i < |v.items| then Some(v.items[i]) else None;
      if next.None? then None else Lookup(next.value, path[1..])
  }

  /** The first path whose value is present (truthy), or None. */
  function FirstPresent(v: Json, paths: seq<seq<Step>>): (r: Option<Json>)
    ensures r.Some? ==> Truthy(r.value)
    decreases |paths|
  {
    if paths == [] then None
    else if Present(Lookup(v, paths[0])) then Lookup(v, paths[0])
    else FirstPresent(v, paths[1..])
  }

  /** Where extractStatusValue looks, in order. */
  const StatusPaths: seq<seq<Step>> := [
    [Key("status")],
    [Key("payment"), Key("status")],
    [Key("data"), Key("status")],
    [Index(0), Key("status")],
    [Key("result"), Key("status")]
  ]

  /** Where extractReferenceId looks, in order. */
  const ReferencePaths: seq<seq<Step>> := [
    [Key("referenceId")],
    [Key("reference_id")],
    [Key("reference")],
    [Key("data"), Key("referenceId")],
    [Key("payment"), Key("referenceId")],
    [Key("result"), Key("referenceId")]
  ]

  /** The status carried by a provider reply, or undefined. */
  function ExtractStatusValue(payload: Json): (r: Option<Json>)
    ensures r.Some? ==> Truthy(r.value)
  {
    if !Truthy(payload) then None
    else if payload.Str? then Some(payload)
    else if Present(Field(payload, "status")) then Field(payload, "status")
    else if Present(Member(Field(payload, "payment"), "status")) then Member(Field(payload, "payment"), "status")
    else if Present(Member(Field(payload, "data"), "status")) then Member(Field(payload, "data"), "status")
    else if payload.Arr? && |payload.items| > 0 && Present(Field(payload.items[0], "status")) then Field(payload.items[0], "status")
    else if Present(Member(Field(payload, "result"), "status")) then Member(Field(payload, "result"), "status")
    else None
  }

  /** `a || b`: the first operand when it is truthy, else the second. */
  function Or(a: Option<Json>, b: Option<Json>): Option<Json> {
    if Present(a) then a else b
  }

  /** The `||` chain of candidate reference ids, as written. */
  function ReferenceChain(payload: Json): Option<Json> {
    Or(Field(payload, "referenceId"),
    Or(Field(payload, "reference_id"),
    Or(Field(payload, "reference"),
    Or(Member(Field(payload, "data"), "referenceId"),
    Or(Member(Field(payload, "payment"), "referenceId"),
       Member(Field(payload, "result"), "referenceId"))))))
  }

  /** extractReferenceId: a falsy reply has no reference id and a string is
      its own. Otherwise, when some candidate of ReferencePaths is truthy the
      result is the first truthy one; when none is, the result is falsy or
      undefined (the `||` chain yields its last operand), so the caller's
      `if (refId)` skips polling. */
  function ExtractReferenceId(payload: Json): (r: Option<Json>)
    ensures !Truthy(payload) ==> r == None
    ensures payload.Str? && payload.s != "" ==> r == Some(payload)
    ensures Truthy(payload) && !payload.Str? ==>
      (Present(r) <==> FirstPresent(payload, ReferencePaths).Some?)
      && (Present(r) ==> r == FirstPresent(payload, ReferencePaths))
  {
    if !Truthy(payload) then None
    else if payload.Str? then Some(payload)
    else
      ReferenceIdIsOrChain(payload);
      OrChainIsFirstPresent(payload, ReferencePaths);
      ReferenceChain(payload)
  }

  /** The provider's final statuses, in upper case. */
  const FinalStatuses: seq<string> :=
    ["SUCCESSFUL", "FAILED", "REJECTED", "CANCELLED", "TIMEOUT", "UNKNOWN", "DECLINED", "ERROR"]

  /** isFinalStatus: a present status is final exactly when its String()
      form equals one of the eight vocabulary words, ignoring case; an
      absent or falsy status never is. */
  function IsFinalStatus(statusValue: Option<Json>): (final: bool)
    ensures final <==>
      Present(statusValue) && exists w :: w in FinalStatuses && EqualsIgnoringCase(ToJsString(statusValue.value), w)
  {
    Present(statusValue) &&
      var normalized := ToJsString(statusValue.value);
      UpperInWords(normalized, FinalStatuses);
      Upper(normalized) in FinalStatuses
  }

  /** isSuccessfulStatus: a present status whose String() form is
      "SUCCESSFUL" ignoring case; every successful status is final. */
  function IsSuccessfulStatus(statusValue: Option<Json>): (ok: bool)
    ensures ok <==> Present(statusValue) && EqualsIgnoringCase(ToJsString(statusValue.value), "SUCCESSFUL")
    ensures ok ==> IsFinalStatus(statusValue)
  {
    Present(statusValue) &&
      var normalized := ToJsString(statusValue.value);
      UpperMatchesIgnoringCase(normalized, "SUCCESSFUL");
      Upper(normalized) == "SUCCESSFUL"
  }

  /** Case-insensitive equality, stated with lower-casing on both sides. */
  predicate EqualsIgnoringCase(a: string, b: string) {
    |a| == |b| && forall i :: 0 <= i < |a| ==> LowerChar(a[i]) == LowerChar(b[i])
  }

  predicate UpperLetters(w: string) {
    forall i :: 0 <= i < |w| ==> 'A' <= w[i] <= 'Z'
  }

  lemma {:induction false} UpperMatchesIgnoringCase(s: string, w: string)
    requires UpperLetters(w)
    ensures Upper(s) == w <==> EqualsIgnoringCase(s, w)
  {
    if Upper(s) == w {
      forall i | 0 <= i < |s| ensures LowerChar(s[i]) == LowerChar(w[i]) {
        assert UpperChar(s[i]) == w[i];
      }
    }
    if EqualsIgnoringCase(s, w) {
      forall i | 0 <= i < |s| ensures Upper(s)[i] == w[i] {
        assert LowerChar(s[i]) == LowerChar(w[i]);
      }
    }
  }

  /** Upper-casing and looking the result up in a list of upper-case words
      is a case-insensitive search of that list. */
  lemma UpperInWords(s: string, words: seq<string>)
    requires forall k :: 0 <= k < |words| ==> UpperLetters(words[k])
    ensures Upper(s) in words <==> exists w :: w in words && EqualsIgnoringCase(s, w)
  {
    forall w | w in words ensures Upper(s) == w <==> EqualsIgnoringCase(s, w) {
      UpperMatchesIgnoringCase(s, w);
    }
  }

  /** Only the status text matters, and only up to case: two string
      statuses that agree ignoring case are both final or both not. */
  lemma FinalStatusIgnoresCase(a: string, b: string)
    requires EqualsIgnoringCase(a, b)
    ensures IsFinalStatus(Some(Str(a))) <==> IsFinalStatus(Some(Str(b)))
    ensures !IsFinalStatus(Some(Str(""))) && !IsFinalStatus(None)
  {
    forall w | EqualsIgnoringCase(a, w) ensures EqualsIgnoringCase(b, w) {
      forall i | 0 <= i < |b| ensures LowerChar(b[i]) == LowerChar(w[i]) {
        assert LowerChar(a[i]) == LowerChar(b[i]);
      }
    }
    forall w | EqualsIgnoringCase(b, w) ensures EqualsIgnoringCase(a, w) {
      forall i | 0 <= i < |a| ensures LowerChar(a[i]) == LowerChar(w[i]) {
        assert LowerChar(a[i]) == LowerChar(b[i]);
      }
    }
  }

  /** The path search picks the earliest present path. */
  lemma {:induction false} FirstPresentIsEarliest(v: Json, paths: seq<seq<Step>>, k: nat)
    requires k < |paths| && Present(Lookup(v, paths[k]))
    requires forall j :: 0 <= j < k ==> !Present(Lookup(v, paths[j]))
    ensures FirstPresent(v, paths) == Lookup(v, paths[k])
  {
    if k > 0 {
      assert !Present(Lookup(v, paths[0]));
      FirstPresentIsEarliest(v, paths[1..], k - 1);
    }
  }

  /** The path search finds nothing exactly when no path is present. */
  lemma {:induction false} FirstPresentNone(v: Json, paths: seq<seq<Step>>)
    ensures FirstPresent(v, paths).None? <==> forall j :: 0 <= j < |paths| ==> !Present(Lookup(v, paths[j]))
  {
    if paths != [] {
      FirstPresentNone(v, paths[1..]);
      assert forall j :: 1 <= j < |paths| ==> paths[j] == paths[1..][j - 1];
    }
  }

  lemma TwoStepLookup(v: Json, a: Step, b: Step)
    ensures Lookup(v, [a, b]) ==
      (var first := Lookup(v, [a]); if first.None? then None else Lookup(first.value, [b]))
  {
    assert [a, b][1..] == [b];
    assert [a][1..] == [];
  }

  /** extractStatusValue: a non-empty string is its own status, a falsy
      payload has none, and otherwise the first present path of
      StatusPaths wins. */
  lemma StatusValueByPaths(payload: Json)
    ensures !Truthy(payload) ==> ExtractStatusValue(payload) == None
    ensures payload.Str? && payload.s != "" ==> ExtractStatusValue(payload) == Some(payload)
    ensures Truthy(payload) && !payload.Str? ==>
      ExtractStatusValue(payload) == FirstPresent(payload, StatusPaths)
  {
    if Truthy(payload) && !payload.Str? {
      var p := StatusPaths;
      assert Lookup(payload, p[0]) == Field(payload, "status") by {
        assert p[0][1..] == [];
      }
      TwoStepLookup(payload, Key("payment"), Key("status"));
      TwoStepLookup(payload, Key("data"), Key("status"));
      TwoStepLookup(payload, Index(0), Key("status"));
      TwoStepLookup(payload, Key("result"), Key("status"));
      assert p[1..][1..][1..][1..][1..] == [];
    }
  }

  /** `a || b || ...` over the values found along the paths. */
  function OrChain(v: Json, paths: seq<seq<Step>>): Option<Json>
    requires paths != []
    decreases |paths|
  {
    if |paths| == 1 then Lookup(v, paths[0]) else Or(Lookup(v, paths[0]), OrChain(v, paths[1..]))
  }

  /** A `||` chain is truthy exactly when some operand is, and then it is
      the first truthy operand. */
  lemma {:induction false} OrChainIsFirstPresent(v: Json, paths: seq<seq<Step>>)
    requires paths != []
    ensures Present(OrChain(v, paths)) <==> FirstPresent(v, paths).Some?
    ensures Present(OrChain(v, paths)) ==> OrChain(v, paths) == FirstPresent(v, paths)
    decreases |paths|
  {
    if |paths| > 1 {
      OrChainIsFirstPresent(v, paths[1..]);
    } else {
      assert paths[1..] == [];
    }
  }

  /** The last three operands of the chain read the nested paths. */
  lemma NestedReferencesAreOrChain(payload: Json)
    ensures OrChain(payload, ReferencePaths[3..]) ==
      Or(Member(Field(payload, "data"), "referenceId"),
      Or(Member(Field(payload, "payment"), "referenceId"),
         Member(Field(payload, "result"), "referenceId")))
  {
    var p := ReferencePaths;
    TwoStepLookup(payload, Key("result"), Key("referenceId"));
    TwoStepLookup(payload, Key("payment"), Key("referenceId"));
    TwoStepLookup(payload, Key("data"), Key("referenceId"));
    assert p[5..] == [p[5]];
    assert OrChain(payload, p[5..]) == Member(Field(payload, "result"), "referenceId");
    assert p[4..][1..] == p[5..];
    assert OrChain(payload, p[4..]) == Or(Member(Field(payload, "payment"), "referenceId"), OrChain(payload, p[5..]));
    assert p[3..][1..] == p[4..];
  }

  /** The `||` chain of extractReferenceId reads the paths of ReferencePaths. */
  lemma ReferenceIdIsOrChain(payload: Json)
    ensures ReferenceChain(payload) == OrChain(payload, ReferencePaths)
  {
    var p := ReferencePaths;
    NestedReferencesAreOrChain(payload);
    assert p[2..][1..] == p[3..] && p[2][1..] == [];
    assert OrChain(payload, p[2..]) == Or(Field(payload, "reference"), OrChain(payload, p[3..]));
    assert p[1..][1..] == p[2..] && p[1][1..] == [];
    assert OrChain(payload, p[1..]) == Or(Field(payload, "reference_id"), OrChain(payload, p[2..]));
    assert p[0][1..] == [];
  }
}
