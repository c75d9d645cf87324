/**
 * The class `GnuPGCryptoAPI` of package/cryptoAPI/gnupg.js: the decision
 * logic around the engine's key listing (`getKeySignatures`) and the
 * minimal public-key export with its memo field (`getMinimalPubKey`).
 *
 * The engine subprocess, its feature probe, the key stripper, `btoa` and
 * the localized messages are not part of this model: what they return is
 * passed in. Calls are taken one after the other.
 */
module GnuPGApi {
  import opened JsText
  import SignatureParser

  /** What the engine run of `getKeySignatures` reports. */
  datatype ListResult = ListResult(
    exitCode: int,
    stdoutData: string,
    /** whether the BAD_SIGNATURE bit of `statusFlags` is set */
    badSignature: bool)

  /** What the promise of `getKeySignatures` resolves to, or the error it rejects with. */
  datatype SignaturesReply =
    | EmptyString
    | NullReply
    | Signatures(listing: SignatureParser.Listing)
    | Rejected(error: SignatureParser.ParseError)

  /** The standard output and standard error of the engine's minimal export of one key. */
  datatype ExportOutput = ExportOutput(stdoutData: string, stderrData: string)

  /**
   * The collaborators of `getMinimalPubKey`: whether the engine has the
   * `export-result` feature (GnuPG 2.1.10 and later), the engine's export of
   * a fingerprint, `getStrippedKey`, `btoa` over the stripped bytes, and the
   * localized messages `failKeyExtract` and `failKeyNoSubkey`.
   */
  datatype ExportEnv = ExportEnv(
    exportResultFeature: bool,
    exportKey: string -> ExportOutput,
    getStrippedKey: string -> Option<seq<bv8>>,
    btoa: seq<bv8> -> string,
    failKeyExtract: string,
    failKeyNoSubkey: string)

  /** The object `retObj` that `getMinimalPubKey` resolves to. */
  datatype RetObj = RetObj(exitCode: int, errorMsg: string, keyData: Js)

  /** The status line GnuPG writes to standard error for each exported key. */
  const EXPORTED_STATUS: string := "[GNUPG:] EXPORTED "

  /** The shortest standard output an engine without `export-result` may give for a successful export. */
  const MIN_KEY_BLOCK_LENGTH: nat := 50

  /** The characters after which `^` matches in a multiline JavaScript regular expression. */
  predicate IsLineTerminator(c: char) {
    c == '\n' || c == '\r' || c == '\U{2028}' || c == '\U{2029}'
  }

  /** The pattern `^\[GNUPG:\] EXPORTED <fpr>` (flag `m`) matches `stderr` at position `p`. */
  predicate ExportedAt(stderr: string, fpr: string, p: int) {
    && 0 <= p <= |stderr|
    && (p == 0 || IsLineTerminator(stderr[p - 1]))
    && StartsWith(stderr[p..], EXPORTED_STATUS + fpr)
  }

  /**
   * `stderr.search(...)` for that pattern, starting at `from`: the first
   * position where it matches, or -1.
   */
  function SearchExported(stderr: string, fpr: string, from: nat): (r: int)
    requires from <= |stderr|
    ensures r == -1 || from <= r <= |stderr|
    ensures r >= 0 ==> ExportedAt(stderr, fpr, r)
    ensures forall p :: from <= p <= |stderr| && (r < 0 || p < r) ==> !ExportedAt(stderr, fpr, p)
    decreases |stderr| - from
  {
    if ExportedAt(stderr, fpr, from) then from
    else if from == |stderr| then -1
    else SearchExported(stderr, fpr, from + 1)
  }

  /** The version-gated check that the engine exported the key. */
  predicate ExportSucceeded(out: ExportOutput, fpr: string, env: ExportEnv) {
    if env.exportResultFeature then SearchExported(out.stderrData, fpr, 0) >= 0
    else |out.stdoutData| >= MIN_KEY_BLOCK_LENGTH
  }

  /** One call of `getMinimalPubKey`: what it returns, the new memo, and whether it ran the engine. */
  datatype ExportStep = ExportStep(ret: RetObj, memo: Js, engineRan: bool)

  /** `getMinimalPubKey(fpr)` on an object whose `minimalKeyBlock` is `memo`. */
  function MinimalPubKey(memo: Js, fpr: string, env: ExportEnv): (r: ExportStep)
    ensures r.ret.keyData == r.memo
    ensures r.engineRan <==> !Truthy(memo)
    ensures Truthy(memo) ==> r.memo == memo
    ensures r.ret.exitCode == 0 <==> Truthy(r.memo)
    ensures r.ret.exitCode in {0, 1, 2}
    ensures r.ret.exitCode == 0 ==> r.ret.errorMsg == ""
    ensures r.ret.exitCode == 2 ==> r.memo == memo
  {
    if Truthy(memo) then ExportStep(RetObj(0, "", memo), memo, false)
    else
      var out := env.exportKey(fpr);
      if !ExportSucceeded(out, fpr, env) then
        ExportStep(RetObj(2, env.failKeyExtract, memo), memo, true)
      else
        var block := match env.getStrippedKey(out.stdoutData)
                     case None => Null
                     case Some(minKey) => Str(env.btoa(minKey));
        if Truthy(block) then ExportStep(RetObj(0, "", block), block, true)
        else ExportStep(RetObj(1, env.failKeyNoSubkey, block), block, true)
  }

  /** One call of `getMinimalPubKey` in a sequence of calls on the same object. */
  datatype Call = Call(fpr: string, env: ExportEnv)

  /** The outcomes of a sequence of calls on an object whose `minimalKeyBlock` starts as `memo`. */
  function Session(memo: Js, calls: seq<Call>): (steps: seq<ExportStep>)
    ensures |steps| == |calls|
    decreases |calls|
  {
    if calls == [] then []
    else
      var first := MinimalPubKey(memo, calls[0].fpr, calls[0].env);
      [first] + Session(first.memo, calls[1..])
  }

  class GnuPGCryptoAPI {
    const apiName: string
    /** The memo of the minimal key export (`undefined` until first set). */
    var minimalKeyBlock: Js
    /** How many times this object has run the engine's export. */
    ghost var engineRuns: nat

    constructor ()
      ensures apiName == "GnuPG"
      ensures minimalKeyBlock == Undefined && engineRuns == 0
    {
      apiName := "GnuPG";
      minimalKeyBlock := Undefined;
      engineRuns := 0;
    }

    /**
     * `getKeySignatures`: the engine's exit code counts only when the
     * BAD_SIGNATURE flag is set; a failing code gives `""`, an empty listing
     * `null`, and anything else the parsed listing (or the parser's error).
     */
    method GetKeySignatures(res: ListResult, ignoreUnknownUid: bool, env: SignatureParser.Env)
      returns (r: SignaturesReply)
      ensures r == EmptyString <==> res.badSignature && res.exitCode != 0
      ensures r == NullReply <==> !(res.badSignature && res.exitCode != 0) && res.stdoutData == ""
      ensures !(res.badSignature && res.exitCode != 0) && res.stdoutData != "" ==>
                match SignatureParser.SignatureListing(res.stdoutData, ignoreUnknownUid, env)
                case Ok(listing) => r == Signatures(listing)
                case Err(e) => r == Rejected(e)
    {
      var exitCode := res.exitCode;
      if !res.badSignature {
        // the engine's exit code is ignored unless a bad signature was reported
        exitCode := 0;
      }
      if exitCode != 0 {
        return EmptyString;
      }
      if |res.stdoutData| > 0 {
        var listing := SignatureParser.ExtractSignatures(res.stdoutData, ignoreUnknownUid, env);
        match listing
        case Ok(m) => return Signatures(m);
        case Err(e) => return Rejected(e);
      }
      return NullReply;
    }

    /**
     * `getMinimalPubKey(fpr)`: while the memo is falsy, run the engine's
     * export, check it, strip the key and memoize its base64 form; once the
     * memo is truthy, return it without running the engine, whatever `fpr` is.
     */
    method GetMinimalPubKey(fpr: string, env: ExportEnv) returns (retObj: RetObj)
      modifies this
      ensures var step := MinimalPubKey(old(minimalKeyBlock), fpr, env);
              retObj == step.ret && minimalKeyBlock == step.memo
              && engineRuns == old(engineRuns) + (if step.engineRan then 1 else 0)
      ensures Truthy(old(minimalKeyBlock)) ==>
                retObj == RetObj(0, "", old(minimalKeyBlock)) && unchanged(this)
    {
      retObj := RetObj(0, "", Str(""));
      if !Truthy(minimalKeyBlock) {
        var res := env.exportKey(fpr);
        engineRuns := engineRuns + 1;
        var exportOK := true;
        var keyBlock := res.stdoutData;
        if env.exportResultFeature {
          if SearchExported(res.stderrData, fpr, 0) < 0 {
            retObj := retObj.(exitCode := 2, errorMsg := env.failKeyExtract);
            exportOK := false;
          }
        } else {
          if |keyBlock| < MIN_KEY_BLOCK_LENGTH {
            retObj := retObj.(exitCode := 2, errorMsg := env.failKeyExtract);
            exportOK := false;
          }
        }
        if exportOK {
          minimalKeyBlock := Null;
          var minKey := env.getStrippedKey(keyBlock);
          if minKey.Some? {
            minimalKeyBlock := Str(env.btoa(minKey.value));
          }
          if !Truthy(minimalKeyBlock) {
            retObj := retObj.(exitCode := 1, errorMsg := env.failKeyNoSubkey);
          }
        }
      }
      retObj := retObj.(keyData := minimalKeyBlock);
    }
  }

  /** `getGnuPGAPI()` */
  method GetGnuPGAPI() returns (api: GnuPGCryptoAPI)
    ensures fresh(api)
    ensures api.apiName == "GnuPG" && api.minimalKeyBlock == Undefined && api.engineRuns == 0
  {
    api := new GnuPGCryptoAPI();
  }

  // ---------------------------------------------------------------------
  // What `getMinimalPubKey` guarantees.
  // ---------------------------------------------------------------------

  /** The search finds the status line exactly when some line of standard error starts with it. */
  lemma ExportedLineFound(stderr: string, fpr: string)
    ensures SearchExported(stderr, fpr, 0) >= 0 <==> exists p :: ExportedAt(stderr, fpr, p)
  {
  }

  /**
   * A failed export check gives exit code 2 and the extraction message, and
   * leaves the memo (which is also the returned key data) as it was.
   */
  lemma ExtractionFailure(memo: Js, fpr: string, env: ExportEnv)
    requires !Truthy(memo)
    requires var out := env.exportKey(fpr);
             || (env.exportResultFeature && forall p :: !ExportedAt(out.stderrData, fpr, p))
             || (!env.exportResultFeature && |out.stdoutData| < MIN_KEY_BLOCK_LENGTH)
    ensures MinimalPubKey(memo, fpr, env) == ExportStep(RetObj(2, env.failKeyExtract, memo), memo, true)
  {
    ExportedLineFound(env.exportKey(fpr).stderrData, fpr);
  }

  /**
   * After a successful export check, a stripper that gives nothing or bytes
   * that encode to `""` leaves exit code 1, the no-subkey message, and a
   * falsy memo: `null`, or `""`.
   */
  lemma NoUsableSubkey(memo: Js, fpr: string, env: ExportEnv)
    requires !Truthy(memo)
    requires ExportSucceeded(env.exportKey(fpr), fpr, env)
    requires var minKey := env.getStrippedKey(env.exportKey(fpr).stdoutData);
             minKey.None? || env.btoa(minKey.value) == ""
    ensures var block := if env.getStrippedKey(env.exportKey(fpr).stdoutData).None? then Null else Str("");
            MinimalPubKey(memo, fpr, env) == ExportStep(RetObj(1, env.failKeyNoSubkey, block), block, true)
  {
  }

  /** A successful export memoizes and returns the base64 form of the stripped key. */
  lemma ExportSuccess(memo: Js, fpr: string, env: ExportEnv)
    requires !Truthy(memo)
    requires ExportSucceeded(env.exportKey(fpr), fpr, env)
    requires var minKey := env.getStrippedKey(env.exportKey(fpr).stdoutData);
             minKey.Some? && env.btoa(minKey.value) != ""
    ensures var block := Str(env.btoa(env.getStrippedKey(env.exportKey(fpr).stdoutData).value));
            MinimalPubKey(memo, fpr, env) == ExportStep(RetObj(0, "", block), block, true)
  {
  }

  /** With a truthy memo, every later call returns it with exit code 0 and runs no engine. */
  lemma {:induction false} MemoizedSession(memo: Js, calls: seq<Call>)
    requires Truthy(memo)
    ensures forall j :: 0 <= j < |calls| ==>
              Session(memo, calls)[j] == ExportStep(RetObj(0, "", memo), memo, false)
  {
    if calls != [] {
      MemoizedSession(memo, calls[1..]);
    }
  }

  /**
   * Once a call succeeds, every later call on the same object, for any
   * fingerprint, succeeds with the same key data and runs no engine.
   */
  lemma {:induction false} SuccessIsFinal(memo: Js, calls: seq<Call>, i: nat, j: nat)
    requires i < j < |calls|
    requires Session(memo, calls)[i].ret.exitCode == 0
    ensures !Session(memo, calls)[j].engineRan
    ensures Session(memo, calls)[j].ret == Session(memo, calls)[i].ret
    decreases |calls|
  {
    var first := MinimalPubKey(memo, calls[0].fpr, calls[0].env);
    if i == 0 {
      MemoizedSession(first.memo, calls[1..]);
    } else {
      SuccessIsFinal(first.memo, calls[1..], i - 1, j - 1);
    }
  }

  /** The engine runs on exactly the calls that find the memo falsy, so never after a success. */
  lemma {:induction false} EngineRunsOnlyUntilSuccess(memo: Js, calls: seq<Call>, j: nat)
    requires j < |calls|
    requires Session(memo, calls)[j].engineRan
    ensures forall i :: 0 <= i < j ==> Session(memo, calls)[i].ret.exitCode != 0
  {
    forall i | 0 <= i < j ensures Session(memo, calls)[i].ret.exitCode != 0 {
      if Session(memo, calls)[i].ret.exitCode == 0 {
        SuccessIsFinal(memo, calls, i, j);
      }
    }
  }
}
