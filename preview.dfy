/**
 * The two text operations inside `createPreviewHTML`: the rewrite of the first
 * `export default function` into `function`, and the component name taken from the
 * first match of the regular expression `function\s+(\w+)`, with `Component` as the
 * fallback. The rest of the HTML template and its evaluation in the frame are not
 * modelled.
 */
module Preview {
  import opened Wrappers
  import opened JsStrings

  const ExportDefault: string := "export default function"
  const FunctionKeyword: string := "function"
  const FallbackName: string := "Component"

  /**
   * `code.replace("export default function", "function")`: the first occurrence is
   * rewritten, the text around it is kept, and code without one is returned as it is.
   */
  function RewriteDefaultExport(code: string): (r: string)
    ensures Absent(code, ExportDefault) ==> r == code
    ensures forall i: nat :: IsFirstOccurrence(code, ExportDefault, i) ==>
      |r| == |code| - (|ExportDefault| - |FunctionKeyword|) &&
      r[..i] == code[..i] &&
      OccursAt(r, FunctionKeyword, i) &&
      r[i + |FunctionKeyword|..] == code[i + |ExportDefault|..]
  {
    ReplaceFirst(code, ExportDefault, FunctionKeyword)
  }

  /**
   * Only the first occurrence is rewritten: a later occurrence that does not overlap
   * the first survives, shifted left by the length difference.
   */
  lemma LaterExportsSurvive(code: string, i: nat, j: nat)
    requires IsFirstOccurrence(code, ExportDefault, i)
    requires OccursAt(code, ExportDefault, j) && j >= i + |ExportDefault|
    ensures OccursAt(RewriteDefaultExport(code), ExportDefault, j - (|ExportDefault| - |FunctionKeyword|))
  {
    LaterOccurrencesSurvive(code, ExportDefault, FunctionKeyword, i, j);
  }

  /** Number of white-space characters starting at `from`. */
  function SpacesFrom(s: string, from: nat): (n: nat)
    requires from <= |s|
    ensures from + n <= |s|
    ensures forall k :: from <= k < from + n ==> IsSpace(s[k])
    ensures from + n == |s| || !IsSpace(s[from + n])
    decreases |s| - from
  {
    if from < |s| && IsSpace(s[from]) then 1 + SpacesFrom(s, from + 1) else 0
  }

  /** Number of word characters starting at `from`. */
  function WordFrom(s: string, from: nat): (n: nat)
    requires from <= |s|
    ensures from + n <= |s|
    ensures forall k :: from <= k < from + n ==> IsWord(s[k])
    ensures from + n == |s| || !IsWord(s[from + n])
    decreases |s| - from
  {
    if from < |s| && IsWord(s[from]) then 1 + WordFrom(s, from + 1) else 0
  }

  /** `SpacesFrom` is the length of the maximal white-space run. */
  lemma {:induction false} SpacesFromExact(s: string, from: nat, w: nat)
    requires from + w <= |s|
    requires forall k :: from <= k < from + w ==> IsSpace(s[k])
    requires from + w == |s| || !IsSpace(s[from + w])
    ensures SpacesFrom(s, from) == w
    decreases w
  {
    if w > 0 {
      SpacesFromExact(s, from + 1, w - 1);
    }
  }

  /** `WordFrom` is the length of the maximal word-character run. */
  lemma {:induction false} WordFromExact(s: string, from: nat, w: nat)
    requires from + w <= |s|
    requires forall k :: from <= k < from + w ==> IsWord(s[k])
    requires from + w == |s| || !IsWord(s[from + w])
    ensures WordFrom(s, from) == w
    decreases w
  {
    if w > 0 {
      WordFromExact(s, from + 1, w - 1);
    }
  }

  /**
   * The regular expression `function\s+(\w+)` matches at position `i`, with `ws`
   * white-space characters after the keyword and capture group `name`. As `\s` and `\w`
   * are disjoint, the greedy match is the maximal run of word characters.
   */
  ghost predicate FunctionMatchAt(code: string, i: nat, ws: nat, name: string) {
    var start := i + |FunctionKeyword| + ws;
    && OccursAt(code, FunctionKeyword, i)
    && ws >= 1 && |name| >= 1
    && start + |name| <= |code|
    && (forall k :: i + |FunctionKeyword| <= k < start ==> IsSpace(code[k]))
    && code[start..start + |name|] == name
    && (forall k :: 0 <= k < |name| ==> IsWord(name[k]))
    && (start + |name| == |code| || !IsWord(code[start + |name|]))
  }

  /** No match of the regular expression starts before position `i`. */
  ghost predicate NoMatchBefore(code: string, i: nat) {
    forall j: nat, ws: nat, name: string :: j < i ==> !FunctionMatchAt(code, j, ws, name)
  }

  /** The regular expression matches nowhere in `code`. */
  ghost predicate NoFunctionMatch(code: string) {
    forall j: nat, ws: nat, name: string :: !FunctionMatchAt(code, j, ws, name)
  }

  /**
   * The capture group of a match starting exactly at `i`, if there is one: a non-empty
   * run of word characters after `function`. `MatchAtSound` and `MatchAtComplete`
   * relate it to `FunctionMatchAt`.
   */
  function MatchAt(code: string, i: nat): (r: Option<string>)
    ensures r.Some? ==> OccursAt(code, FunctionKeyword, i)
    ensures r.Some? ==> |r.value| >= 1 && forall k :: 0 <= k < |r.value| ==> IsWord(r.value[k])
  {
    if !OccursAt(code, FunctionKeyword, i) then None
    else
      var ws := SpacesFrom(code, i + |FunctionKeyword|);
      var start := i + |FunctionKeyword| + ws;
      var n := WordFrom(code, start);
      if ws >= 1 && n >= 1 then Some(code[start..start + n]) else None
  }

  lemma MatchAtSound(code: string, i: nat)
    requires MatchAt(code, i).Some?
    ensures FunctionMatchAt(code, i, SpacesFrom(code, i + |FunctionKeyword|), MatchAt(code, i).value)
  {
  }

  lemma MatchAtComplete(code: string, i: nat, ws: nat, name: string)
    requires FunctionMatchAt(code, i, ws, name)
    ensures MatchAt(code, i) == Some(name)
  {
    var from := i + |FunctionKeyword|;
    var start := from + ws;
    assert code[start] == name[0];
    SpacesFromExact(code, from, ws);
    forall k | start <= k < start + |name| ensures IsWord(code[k]) {
      assert code[k] == name[k - start];
    }
    WordFromExact(code, start, |name|);
  }

  /** The leftmost position at or after `from` where the regular expression matches. */
  function FirstMatchFrom(code: string, from: nat): (r: Option<nat>)
    ensures r.Some? ==> from <= r.value && MatchAt(code, r.value).Some?
    ensures r.Some? ==> forall j: nat :: from <= j < r.value ==> MatchAt(code, j).None?
    ensures r.None? ==> forall j: nat :: from <= j ==> MatchAt(code, j).None?
    decreases |code| - from
  {
    if from >= |code| then None
    else if MatchAt(code, from).Some? then Some(from)
    else FirstMatchFrom(code, from + 1)
  }

  /**
   * `code.match(/function\s+(\w+)/)?.[1] || "Component"`: always a non-empty run of
   * word characters; `ComponentNameSpec` says which one.
   */
  function ComponentName(code: string): (name: string)
    ensures |name| >= 1 && forall k :: 0 <= k < |name| ==> IsWord(name[k])
  {
    match FirstMatchFrom(code, 0)
    case Some(i) => MatchAt(code, i).value
    case None => FallbackName
  }

  /**
   * The component name is the capture group of the leftmost match of
   * `function\s+(\w+)` in the original code, and `Component` when there is none.
   */
  lemma ComponentNameSpec(code: string)
    ensures NoFunctionMatch(code) ==> ComponentName(code) == FallbackName
    ensures forall i: nat, ws: nat, name: string ::
      FunctionMatchAt(code, i, ws, name) && NoMatchBefore(code, i) ==> ComponentName(code) == name
  {
    var first := FirstMatchFrom(code, 0);
    if first.Some? {
      MatchAtSound(code, first.value);
    }
    forall i: nat, ws: nat, name: string | FunctionMatchAt(code, i, ws, name) && NoMatchBefore(code, i)
      ensures ComponentName(code) == name
    {
      MatchAtComplete(code, i, ws, name);
    }
  }
}
