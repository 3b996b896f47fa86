/**
 * The alternative vector scanner (`check_payload`): an ordered table of
 * attack vectors, each with its own patterns; a vector is reported once, as
 * soon as one of its patterns is found, because the inner loop breaks there.
 */
module Vectors {
  import opened Patterns

  datatype Vector = Vector(name: string, patterns: seq<string>)

  /** `ATTACK_VECTORS`, in the dictionary's insertion order. */
  const AttackVectors: seq<Vector> := [
    Vector("sql_injection", [
      "(?i)(UNION\\s+SELECT|UNION\\s+ALL\\s+SELECT)",
      "(?i)(OR\\s+1=1)",
      "(?i)(--|\\#|\\/\\*)",
      "(?i)(DROP\\s+TABLE|INSERT\\s+INTO|DELETE\\s+FROM)",
      "(?i)(WAITFOR\\s+DELAY|SLEEP\\()"]),
    Vector("xss", [
      "(?i)(<script>|javascript:|onerror=|onload=)",
      "(?i)(alert\\(|prompt\\(|document\\.cookie)",
      "(?i)(<img\\s+src=x)"]),
    Vector("directory_traversal", [
      "(?i)(\\.\\./\\.\\./|\\.\\.\\\\\\.\\.\\\\)",
      "(?i)(etc/passwd|windows/win.ini)",
      "(?i)(\\%2e\\%2e\\%2f)"]),
    Vector("command_injection", [
      "(?i)(;|\\&|\\|)\\s*(ping|cat|ls|whoami|net user)",
      "(?i)(\\$\\(.*\\)|`.*`)"]),
    Vector("ssrf", [
      "(?i)(localhost|127\\.0\\.0\\.1|0\\.0\\.0\\.0)",
      "(?i)(169\\.254\\.169\\.254)",
      "(?i)(file:///)"]),
    Vector("lfi_rfi", [
      "(?i)(include\\s*\\(|require\\s*\\(|php://input)",
      "(?i)(\\.php\\?|\\.jsp\\?)"]),
    Vector("credential_stuffing", []),
    Vector("http_parameter_pollution", [
      "(?i)(\\?id=.*\\?id=|\\&id=.*\\?id=)"]),
    Vector("xxe_injection", [
      "(?i)(<!ENTITY|SYSTEM\\s+\\\"file:)",
      "(?i)(<!DOCTYPE.*\\[)"]),
    Vector("web_shells", [
      "(?i)(cmd\\.php|shell\\.jsp|c99\\.php|r57\\.php)",
      "(?i)(eval\\(|exec\\(|passthru\\()"]),
    Vector("malicious_user_agents", [
      "(?i)(sqlmap|nikto|burp|nmap|gobuster|dirbuster|hydra)",
      "(?i)(python-requests|curl/|wget/)"]),
    Vector("typosquatting_spoofing", [
      "(?i)(Host:\\s*google\\.com|Host:\\s*paypal\\.com)"])
  ]

  /** Some pattern of the list is found in `content`. */
  predicate AnyMatch(patterns: seq<string>, content: string, search: Search) {
    exists k :: 0 <= k < |patterns| && search(patterns[k], content)
  }

  /** The names of the vectors, in table order. */
  function Names(vectors: seq<Vector>): (r: seq<string>)
    ensures |r| == |vectors|
    ensures forall k :: 0 <= k < |vectors| ==> r[k] == vectors[k].name
  {
    seq(|vectors|, k requires 0 <= k < |vectors| => vectors[k].name)
  }

  /** The vectors reported for a non-empty content: those with a pattern found, in table order. */
  function Detected(vectors: seq<Vector>, content: string, search: Search): (r: seq<string>)
    ensures |r| <= |vectors|
    decreases |vectors|
  {
    if |vectors| == 0 then []
    else
      var last := vectors[|vectors| - 1];
      Detected(vectors[..|vectors| - 1], content, search)
      + (if AnyMatch(last.patterns, content, search) then [last.name] else [])
  }

  /** What `check_payload(content)` returns. */
  function ScanResult(content: string, search: Search): (r: seq<string>)
    ensures content == "" ==> r == []
    ensures |r| <= |AttackVectors|
  {
    if content == "" then [] else Detected(AttackVectors, content, search)
  }

  /**
   * `check_payload(content)`: scans every vector in order and stops a
   * vector's pattern loop at the first pattern found.
   */
  method CheckPayload(content: string, search: Search) returns (detected: seq<string>)
    ensures detected == ScanResult(content, search)
  {
    detected := [];
    if content == "" {
      return detected;
    }
    var i := 0;
    while i < |AttackVectors|
      invariant 0 <= i <= |AttackVectors|
      invariant detected == Detected(AttackVectors[..i], content, search)
    {
      var vector := AttackVectors[i];
      assert AttackVectors[..i + 1][..i] == AttackVectors[..i];
      var j := 0;
      var found := false;
      while j < |vector.patterns|
        invariant 0 <= j <= |vector.patterns|
        invariant forall k :: 0 <= k < j ==> !search(vector.patterns[k], content)
      {
        if search(vector.patterns[j], content) {
          found := true;
          break;
        }
        j := j + 1;
      }
      assert found <==> AnyMatch(vector.patterns, content, search);
      if found {
        detected := detected + [vector.name];
      }
      i := i + 1;
    }
    assert AttackVectors[..i] == AttackVectors;
  }

  /** No name occurs twice. */
  predicate Distinct(s: seq<string>) {
    forall i, j :: 0 <= i < j < |s| ==> s[i] != s[j]
  }

  /** `xs` is a subsequence of `ys`: it is obtained by deleting elements of `ys`. */
  ghost predicate IsSubsequence(xs: seq<string>, ys: seq<string>)
    decreases |ys|
  {
    xs == []
    || (|ys| > 0
        && ((|xs| > 0 && xs[|xs| - 1] == ys[|ys| - 1] && IsSubsequence(xs[..|xs| - 1], ys[..|ys| - 1]))
            || IsSubsequence(xs, ys[..|ys| - 1])))
  }

  lemma {:induction false} SubsequenceLength(xs: seq<string>, ys: seq<string>)
    requires IsSubsequence(xs, ys)
    ensures |xs| <= |ys|
    decreases |ys|
  {
    if xs != [] {
      if |xs| > 0 && xs[|xs| - 1] == ys[|ys| - 1] && IsSubsequence(xs[..|xs| - 1], ys[..|ys| - 1]) {
        SubsequenceLength(xs[..|xs| - 1], ys[..|ys| - 1]);
      } else {
        SubsequenceLength(xs, ys[..|ys| - 1]);
      }
    }
  }

  /** A name is reported iff it belongs to a vector one of whose patterns is found. */
  lemma {:induction false} DetectedIff(vectors: seq<Vector>, content: string, search: Search, name: string)
    ensures name in Detected(vectors, content, search)
        <==> exists k :: 0 <= k < |vectors| && vectors[k].name == name
                         && AnyMatch(vectors[k].patterns, content, search)
    decreases |vectors|
  {
    if |vectors| > 0 {
      var init := vectors[..|vectors| - 1];
      DetectedIff(init, content, search, name);
      if exists k :: 0 <= k < |vectors| && vectors[k].name == name
                     && AnyMatch(vectors[k].patterns, content, search) {
        var k :| 0 <= k < |vectors| && vectors[k].name == name
                 && AnyMatch(vectors[k].patterns, content, search);
        if k < |init| {
          assert init[k] == vectors[k];
        }
      }
    }
  }

  /** The reported names, in order, are a subsequence of the table's names. */
  lemma {:induction false} DetectedIsSubsequence(vectors: seq<Vector>, content: string, search: Search)
    ensures IsSubsequence(Detected(vectors, content, search), Names(vectors))
    decreases |vectors|
  {
    if |vectors| > 0 {
      var init := vectors[..|vectors| - 1];
      DetectedIsSubsequence(init, content, search);
      assert Names(vectors)[..|vectors| - 1] == Names(init);
      var d := Detected(init, content, search);
      var ys := Names(vectors);
      if AnyMatch(vectors[|vectors| - 1].patterns, content, search) {
        var xs := d + [vectors[|vectors| - 1].name];
        assert xs[..|xs| - 1] == d;
        assert xs[|xs| - 1] == ys[|ys| - 1];
        assert IsSubsequence(xs[..|xs| - 1], ys[..|ys| - 1]);
      } else {
        assert Detected(vectors, content, search) == d;
        assert IsSubsequence(d, ys[..|ys| - 1]);
      }
    }
  }

  /** With distinct vector names, each name is reported at most once. */
  lemma {:induction false} DetectedDistinct(vectors: seq<Vector>, content: string, search: Search)
    requires Distinct(Names(vectors))
    ensures Distinct(Detected(vectors, content, search))
    decreases |vectors|
  {
    if |vectors| > 0 {
      var n := |vectors| - 1;
      var init := vectors[..n];
      assert Names(init) == Names(vectors)[..n];
      DetectedDistinct(init, content, search);
      var d := Detected(init, content, search);
      if AnyMatch(vectors[n].patterns, content, search) {
        forall k | 0 <= k < n ensures init[k].name != vectors[n].name {
          assert Names(vectors)[k] == init[k].name;
        }
        DetectedIff(init, content, search, vectors[n].name);
        var r := d + [vectors[n].name];
        forall i, j | 0 <= i < j < |r| ensures r[i] != r[j] {
          if j < |d| {
            assert r[i] == d[i] && r[j] == d[j];
          } else {
            assert r[i] == d[i] && r[j] == vectors[n].name;
          }
        }
      }
    }
  }

  lemma AttackVectorNamesDistinct()
    ensures Distinct(Names(AttackVectors))
  {
    var ns := Names(AttackVectors);
    assert ns == ["sql_injection", "xss", "directory_traversal", "command_injection",
                  "ssrf", "lfi_rfi", "credential_stuffing", "http_parameter_pollution",
                  "xxe_injection", "web_shells", "malicious_user_agents", "typosquatting_spoofing"];
  }

  /** Empty content is reported as nothing, without consulting the patterns. */
  lemma EmptyContentDetectsNothing(search: Search)
    ensures ScanResult("", search) == []
  {
  }

  /**
   * For non-empty content, a vector name is reported iff one of that vector's
   * patterns is found, and then exactly once.
   */
  lemma ScanResultIff(content: string, search: Search, k: int)
    requires content != ""
    requires 0 <= k < |AttackVectors|
    ensures AttackVectors[k].name in ScanResult(content, search)
        <==> AnyMatch(AttackVectors[k].patterns, content, search)
  {
    var name := AttackVectors[k].name;
    DetectedIff(AttackVectors, content, search, name);
    AttackVectorNamesDistinct();
    forall m | 0 <= m < |AttackVectors| && AttackVectors[m].name == name
      ensures m == k
    {
      assert Names(AttackVectors)[m] == Names(AttackVectors)[k];
    }
  }

  /**
   * The result has no duplicates, follows the table's order, and so holds at
   * most one entry per vector.
   */
  lemma ScanResultShape(content: string, search: Search)
    ensures Distinct(ScanResult(content, search))
    ensures IsSubsequence(ScanResult(content, search), Names(AttackVectors))
    ensures |ScanResult(content, search)| <= |AttackVectors|
  {
    if content != "" {
      AttackVectorNamesDistinct();
      DetectedDistinct(AttackVectors, content, search);
      DetectedIsSubsequence(AttackVectors, content, search);
    }
    SubsequenceLength(ScanResult(content, search), Names(AttackVectors));
  }

  /** `credential_stuffing` has no patterns, so it is never reported. */
  lemma CredentialStuffingNeverReported(content: string, search: Search)
    ensures "credential_stuffing" !in ScanResult(content, search)
  {
    if content != "" {
      assert AttackVectors[6].name == "credential_stuffing";
      assert AttackVectors[6].patterns == [];
      ScanResultIff(content, search, 6);
    }
  }
}
