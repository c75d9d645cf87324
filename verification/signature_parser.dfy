/**
 * `extractSignatures` of package/cryptoAPI/gnupg.js: the parser of GnuPG's
 * `--with-colons` key listing (`--list-sig --fixed-list-mode
 * --with-fingerprint`) into a map from user-id hash to an identity entry
 * with its certification signatures.
 *
 * The parser is a loop over the lines of the listing with four state
 * variables (`havePub`, `currUid`, `keyId`, `fpr`) and the map it builds.
 * `ParseLines` is that loop as a function, folded over ever longer prefixes
 * of the lines; the method `ExtractSignatures` is the loop itself and is
 * proved to compute it. The lemmas at the end relate `ParseLines` to a
 * definition of each entry that does not run the state machine: the entry
 * of a key comes from the LAST `uid`/`uat` line with that key, and its
 * signatures are the kept `sig` lines that follow that line up to the next
 * `uid`/`uat` line.
 */
module SignatureParser {
  import opened JsText

  // Field positions of a colon-separated record.
  const ENTRY_ID: nat := 0
  const KEY_ID: nat := 4
  const CREATED_ID: nat := 5
  const UID_ID: nat := 7
  const USERID_ID: nat := 9
  const SIG_TYPE_ID: nat := 10

  /** The user id GnuPG prints for a signer whose key is not in the keyring. */
  const UNKNOWN_SIGNATURE: string := "[User ID not found]"

  /**
   * The collaborators the parser calls and whose code is not part of this
   * model: the decoder of GnuPG's escaped user ids, the date formatter
   * (always called with the arguments `true, false`) and the localized
   * label of a photo id (`keyring.photo`).
   */
  datatype Env = Env(convertGpgToUnicode: Js -> Js, getDateTime: Js -> Js, photoLabel: Js)

  /** One certification signature on an identity. */
  datatype Sig = Sig(userId: Js, created: Js, signerKeyId: Js, sigType: string, sigKnown: bool)

  /** One `uid` or `uat` identity of the listed key. */
  datatype Entry = Entry(userId: Js, rawUserId: Js, keyId: Js, fpr: Js, created: Js, sigList: seq<Sig>)

  /** The object `listObj`: identity entries by the key the uid hash field coerces to. */
  type Listing = map<string, Entry>

  /**
   * The two ways the source throws a TypeError: a `sig` record too short to
   * have a signature-type field (`substr` of `undefined`), and a kept
   * signature while `listObj[currUid]` is `undefined` (no `uid`/`uat` line yet).
   */
  datatype ParseError = SigTypeMissing | NoCurrentUid

  datatype Result = Ok(listing: Listing) | Err(error: ParseError)

  /** The loop's variables. */
  datatype State = State(havePub: bool, currUid: string, keyId: Js, fpr: Js, listObj: Listing)

  /** Where the loop is after some lines: still going, returned early, or thrown. */
  datatype Progress = Running(st: State) | Stopped(listObj: Listing) | Failed(error: ParseError)

  const Init: State := State(false, "", Str(""), Str(""), map[])

  function Tokens(line: string): seq<string> {
    Split(line, ':')
  }

  function RecordType(line: string): string {
    Tokens(line)[ENTRY_ID]
  }

  /** The test `sigType.substr(0, 2).toLowerCase() === "1f"` that drops a signature. */
  predicate IsRevokedType(sigType: string) {
    LowerCase(Prefix(sigType, 2)) == "1f"
  }

  /** The entry a `uid`/`uat` record creates, with an empty signature list. */
  function NewEntry(tokens: seq<string>, keyId: Js, fpr: Js, env: Env): Entry
    requires |tokens| >= 1
  {
    Entry(
      userId := if tokens[ENTRY_ID] == "uat" then env.photoLabel
                else env.convertGpgToUnicode(Field(tokens, USERID_ID)),
      rawUserId := Field(tokens, USERID_ID),
      keyId := keyId,
      fpr := fpr,
      created := env.getDateTime(Field(tokens, CREATED_ID)),
      sigList := [])
  }

  /** The signature object a `sig` record with signature type `sigType` builds. */
  function SigRecord(tokens: seq<string>, sigType: string, env: Env): Sig {
    Sig(
      userId := env.convertGpgToUnicode(Field(tokens, USERID_ID)),
      created := env.getDateTime(Field(tokens, CREATED_ID)),
      signerKeyId := Field(tokens, KEY_ID),
      sigType := sigType,
      sigKnown := Field(tokens, USERID_ID) != Str(UNKNOWN_SIGNATURE))
  }

  /** The unknown-signer filter: `!ignoreUnknownUid || sig.userId != UNKNOWN_SIGNATURE`. */
  predicate Keeps(sig: Sig, ignoreUnknownUid: bool) {
    !ignoreUnknownUid || sig.userId != Str(UNKNOWN_SIGNATURE)
  }

  /** The signature a line adds to some entry, if it is a `sig` record that survives both filters. */
  function KeptSig(line: string, ignoreUnknownUid: bool, env: Env): Option<Sig> {
    var t := Tokens(line);
    var sigType := Field(t, SIG_TYPE_ID);
    if t[ENTRY_ID] == "sig" && sigType.Str? && !IsRevokedType(sigType.s)
       && Keeps(SigRecord(t, sigType.s, env), ignoreUnknownUid)
    then Some(SigRecord(t, sigType.s, env))
    else None
  }

  function AppendSig(e: Entry, sig: Sig): Entry {
    e.(sigList := e.sigList + [sig])
  }

  /** One turn of the loop: the `switch` on the record type. */
  function Step(st: State, line: string, ignoreUnknownUid: bool, env: Env): Progress {
    var t := Tokens(line);
    if t[ENTRY_ID] == "pub" then
      if st.havePub then Stopped(st.listObj)
      else Running(st.(havePub := true, keyId := Field(t, KEY_ID)))
    else if t[ENTRY_ID] == "fpr" then
      Running(if st.fpr == Str("") then st.(fpr := Field(t, USERID_ID)) else st)
    else if t[ENTRY_ID] == "uid" || t[ENTRY_ID] == "uat" then
      var k := PropertyKey(Field(t, UID_ID));
      Running(st.(currUid := k, listObj := st.listObj[k := NewEntry(t, st.keyId, st.fpr, env)]))
    else if t[ENTRY_ID] == "sig" then
      var sigType := Field(t, SIG_TYPE_ID);
      if !sigType.Str? then Failed(SigTypeMissing)
      else if IsRevokedType(sigType.s) then Running(st)
      else
        var sig := SigRecord(t, sigType.s, env);
        if !Keeps(sig, ignoreUnknownUid) then Running(st)
        else if st.currUid !in st.listObj then Failed(NoCurrentUid)
        else Running(st.(listObj := st.listObj[st.currUid := AppendSig(st.listObj[st.currUid], sig)]))
    else
      Running(st)
  }

  /** The loop run over the lines `ls`, one after the other. */
  function ParseLines(ls: seq<string>, ignoreUnknownUid: bool, env: Env): Progress
    decreases |ls|
  {
    if ls == [] then Running(Init)
    else
      match ParseLines(ls[..|ls| - 1], ignoreUnknownUid, env)
      case Running(st) => Step(st, ls[|ls| - 1], ignoreUnknownUid, env)
      case other => other
  }

  function Outcome(p: Progress): Result {
    match p
    case Running(st) => Ok(st.listObj)
    case Stopped(listObj) => Ok(listObj)
    case Failed(e) => Err(e)
  }

  /** `gpgKeyList.split(/\n/)` */
  function Lines(gpgKeyList: string): seq<string> {
    Split(gpgKeyList, '\n')
  }

  /** What `extractSignatures(gpgKeyList, ignoreUnknownUid)` returns or throws. */
  function SignatureListing(gpgKeyList: string, ignoreUnknownUid: bool, env: Env): Result {
    Outcome(ParseLines(Lines(gpgKeyList), ignoreUnknownUid, env))
  }

  /** The loop of `extractSignatures`, with `listObj` updated in place. */
  method ExtractSignatures(gpgKeyList: string, ignoreUnknownUid: bool, env: Env) returns (r: Result)
    ensures r == SignatureListing(gpgKeyList, ignoreUnknownUid, env)
  {
    var listObj: Listing := map[];
    var havePub := false;
    var currUid, keyId, fpr := "", Str(""), Str("");

    var lineArr := Split(gpgKeyList, '\n');
    var i := 0;
    while i < |lineArr|
      invariant 0 <= i <= |lineArr|
      invariant ParseLines(lineArr[..i], ignoreUnknownUid, env)
                == Running(State(havePub, currUid, keyId, fpr, listObj))
    {
      ParseLinesNext(lineArr, i, State(havePub, currUid, keyId, fpr, listObj), ignoreUnknownUid, env);
      var lineTokens := Split(lineArr[i], ':');
      var recordType := lineTokens[ENTRY_ID];
      if recordType == "pub" {
        if havePub {
          return Ok(listObj);
        }
        havePub := true;
        keyId := Field(lineTokens, KEY_ID);
      } else if recordType == "fpr" {
        if fpr == Str("") {
          fpr := Field(lineTokens, USERID_ID);
        }
      } else if recordType == "uid" || recordType == "uat" {
        currUid := PropertyKey(Field(lineTokens, UID_ID));
        listObj := listObj[currUid := NewEntry(lineTokens, keyId, fpr, env)];
      } else if recordType == "sig" {
        var sigType := Field(lineTokens, SIG_TYPE_ID);
        if !sigType.Str? {
          return Err(SigTypeMissing);
        }
        if !IsRevokedType(sigType.s) {
          var sig := SigRecord(lineTokens, sigType.s, env);
          if !ignoreUnknownUid || sig.userId != Str(UNKNOWN_SIGNATURE) {
            if currUid !in listObj {
              return Err(NoCurrentUid);
            }
            listObj := listObj[currUid := AppendSig(listObj[currUid], sig)];
          }
        }
      }
      i := i + 1;
    }
    assert lineArr[..i] == lineArr;
    r := Ok(listObj);
  }

  /** The turn on line `i` of a running parse, and the result when that turn ends the loop. */
  lemma ParseLinesNext(ls: seq<string>, i: nat, st: State, ignoreUnknownUid: bool, env: Env)
    requires i < |ls|
    requires ParseLines(ls[..i], ignoreUnknownUid, env) == Running(st)
    ensures ParseLines(ls[..i + 1], ignoreUnknownUid, env) == Step(st, ls[i], ignoreUnknownUid, env)
    ensures !Step(st, ls[i], ignoreUnknownUid, env).Running? ==>
              ParseLines(ls, ignoreUnknownUid, env) == Step(st, ls[i], ignoreUnknownUid, env)
  {
    assert ls[..i + 1][..i] == ls[..i];
    if !Step(st, ls[i], ignoreUnknownUid, env).Running? {
      StoppedStaysStopped(ls, i + 1, ignoreUnknownUid, env);
    }
  }

  /** Once the loop has returned or thrown, further lines change nothing. */
  lemma {:induction false} StoppedStaysStopped(ls: seq<string>, n: nat, ignoreUnknownUid: bool, env: Env)
    requires n <= |ls|
    requires !ParseLines(ls[..n], ignoreUnknownUid, env).Running?
    ensures ParseLines(ls, ignoreUnknownUid, env) == ParseLines(ls[..n], ignoreUnknownUid, env)
    decreases |ls| - n
  {
    if n < |ls| {
      assert ls[..n + 1][..n] == ls[..n];
      StoppedStaysStopped(ls, n + 1, ignoreUnknownUid, env);
    } else {
      assert ls[..n] == ls;
    }
  }

  // ---------------------------------------------------------------------
  // A reference description of the result, by position in the listing.
  // ---------------------------------------------------------------------

  predicate IsPub(line: string) { RecordType(line) == "pub" }
  predicate IsFpr(line: string) { RecordType(line) == "fpr" }
  predicate IsSig(line: string) { RecordType(line) == "sig" }
  predicate IsIdentity(line: string) { RecordType(line) == "uid" || RecordType(line) == "uat" }

  /** The key under which a `uid`/`uat` line files its entry. */
  function IdentityKey(line: string): string {
    PropertyKey(Field(Tokens(line), UID_ID))
  }

  predicate NoIdentity(ls: seq<string>) {
    forall i :: 0 <= i < |ls| ==> !IsIdentity(ls[i])
  }

  function PubCount(ls: seq<string>): nat {
    if ls == [] then 0 else (if IsPub(ls[0]) then 1 else 0) + PubCount(ls[1..])
  }

  /** Field 4 of the first `pub` line, or `""` when there is none. */
  function FirstKeyId(ls: seq<string>): (k: Js)
    ensures PubCount(ls) == 0 ==> k == Str("")
  {
    if ls == [] then Str("")
    else if IsPub(ls[0]) then Field(Tokens(ls[0]), KEY_ID)
    else FirstKeyId(ls[1..])
  }

  /** Field 9 of the first `fpr` line whose field 9 is not the empty string, or `""`. */
  function FirstFpr(ls: seq<string>): Js {
    if ls == [] then Str("")
    else if IsFpr(ls[0]) && Field(Tokens(ls[0]), USERID_ID) != Str("") then Field(Tokens(ls[0]), USERID_ID)
    else FirstFpr(ls[1..])
  }

  /** The lines before the first `uid`/`uat` line. */
  function UntilIdentity(ls: seq<string>): (r: seq<string>)
    ensures r <= ls
    ensures NoIdentity(r)
  {
    if ls == [] || IsIdentity(ls[0]) then [] else [ls[0]] + UntilIdentity(ls[1..])
  }

  /** The signatures the lines `ls` contribute, in order. */
  function KeptSigs(ls: seq<string>, ignoreUnknownUid: bool, env: Env): (sigs: seq<Sig>)
    ensures |sigs| <= |ls|
    ensures forall j :: 0 <= j < |sigs| ==>
              !IsRevokedType(sigs[j].sigType) && Keeps(sigs[j], ignoreUnknownUid)
  {
    if ls == [] then []
    else
      (match KeptSig(ls[0], ignoreUnknownUid, env) case Some(s) => [s] case None => [])
      + KeptSigs(ls[1..], ignoreUnknownUid, env)
  }

  /** The index of the last `uid`/`uat` line with key `k`, or -1. */
  function LastIdentity(ls: seq<string>, k: string): (i: int)
    ensures -1 <= i < |ls|
    ensures 0 <= i ==> IsIdentity(ls[i]) && IdentityKey(ls[i]) == k
    ensures forall j :: i < j < |ls| ==> !(IsIdentity(ls[j]) && IdentityKey(ls[j]) == k)
    decreases |ls|
  {
    if ls == [] then -1
    else if IsIdentity(ls[|ls| - 1]) && IdentityKey(ls[|ls| - 1]) == k then |ls| - 1
    else LastIdentity(ls[..|ls| - 1], k)
  }

  /**
   * The entry the `uid`/`uat` line at index `i` files: its key id and
   * fingerprint are those latched by the lines before it, and its signatures
   * are those of the lines after it up to the next `uid`/`uat` line.
   */
  function ExpectedEntry(ls: seq<string>, i: int, ignoreUnknownUid: bool, env: Env): Entry
    requires 0 <= i < |ls|
  {
    NewEntry(Tokens(ls[i]), FirstKeyId(ls[..i]), FirstFpr(ls[..i]), env)
      .(sigList := KeptSigs(UntilIdentity(ls[i + 1..]), ignoreUnknownUid, env))
  }
  /** No `uid`/`uat` line comes after index `i`. */
  predicate NoIdentityAfter(ls: seq<string>, i: int) {
    forall j :: 0 <= j < |ls| && i < j ==> !IsIdentity(ls[j])
  }

  /** The latched variables after the lines `ls`. */
  ghost predicate Latched(ls: seq<string>, st: State) {
    && (st.havePub <==> PubCount(ls) > 0)
    && PubCount(ls) <= 1
    && st.keyId == FirstKeyId(ls)
    && st.fpr == FirstFpr(ls)
  }

  /** `currUid` names the entry of the last `uid`/`uat` line, once there is one. */
  ghost predicate CurrentMatches(ls: seq<string>, listObj: Listing, currUid: string) {
    !NoIdentity(ls) ==>
      currUid in listObj && LastIdentity(ls, currUid) >= 0 && NoIdentityAfter(ls, LastIdentity(ls, currUid))
  }

  /** The entry of key `k` after the lines `ls` is the one the reference description gives. */
  ghost predicate EntryMatches(ls: seq<string>, listObj: Listing, k: string, ignoreUnknownUid: bool, env: Env) {
    && (k in listObj <==> LastIdentity(ls, k) >= 0)
    && (k in listObj ==> listObj[k] == ExpectedEntry(ls, LastIdentity(ls, k), ignoreUnknownUid, env))
  }

  // Facts about the reference functions when one line is appended.

  lemma {:induction false} PubCountSnoc(ls: seq<string>, x: string)
    ensures PubCount(ls + [x]) == PubCount(ls) + (if IsPub(x) then 1 else 0)
  {
    if ls != [] {
      assert (ls + [x])[1..] == ls[1..] + [x];
      PubCountSnoc(ls[1..], x);
    }
  }

  lemma {:induction false} FirstKeyIdSnoc(ls: seq<string>, x: string)
    ensures FirstKeyId(ls + [x]) ==
            if PubCount(ls) > 0 then FirstKeyId(ls)
            else if IsPub(x) then Field(Tokens(x), KEY_ID) else Str("")
  {
    if ls != [] {
      assert (ls + [x])[1..] == ls[1..] + [x];
      FirstKeyIdSnoc(ls[1..], x);
    }
  }

  lemma {:induction false} FirstFprSnoc(ls: seq<string>, x: string)
    ensures FirstFpr(ls + [x]) ==
            if FirstFpr(ls) != Str("") then FirstFpr(ls)
            else if IsFpr(x) then Field(Tokens(x), USERID_ID) else Str("")
  {
    if ls != [] {
      assert (ls + [x])[1..] == ls[1..] + [x];
      FirstFprSnoc(ls[1..], x);
    }
  }

  lemma {:induction false} UntilIdentitySnoc(s: seq<string>, x: string)
    ensures NoIdentity(s) ==> UntilIdentity(s) == s
    ensures UntilIdentity(s + [x]) ==
            if NoIdentity(s) && !IsIdentity(x) then s + [x] else UntilIdentity(s)
  {
    if s == [] {
      assert [] + [x] == [x];
    } else {
      var rest := s[1..];
      assert (s + [x])[1..] == rest + [x];
      assert (s + [x])[0] == s[0];
      UntilIdentitySnoc(rest, x);
      if NoIdentity(s) {
        assert NoIdentity(rest) by {
          forall j | 0 <= j < |rest| ensures !IsIdentity(rest[j]) {
            assert rest[j] == s[j + 1];
          }
        }
        assert [s[0]] + rest == s;
        assert [s[0]] + (rest + [x]) == s + [x];
      } else if !IsIdentity(s[0]) {
        assert !NoIdentity(rest) by {
          var j :| 0 <= j < |s| && IsIdentity(s[j]);
          assert rest[j - 1] == s[j];
        }
      }
    }
  }

  function KeptSigsOfLine(x: string, ignoreUnknownUid: bool, env: Env): seq<Sig> {
    match KeptSig(x, ignoreUnknownUid, env) case Some(s) => [s] case None => []
  }

  lemma {:induction false} KeptSigsSnoc(s: seq<string>, x: string, ignoreUnknownUid: bool, env: Env)
    ensures KeptSigs(s + [x], ignoreUnknownUid, env)
            == KeptSigs(s, ignoreUnknownUid, env) + KeptSigsOfLine(x, ignoreUnknownUid, env)
  {
    if s == [] {
      assert [] + [x] == [x];
      assert [x][1..] == [];
    } else {
      assert (s + [x])[1..] == s[1..] + [x];
      KeptSigsSnoc(s[1..], x, ignoreUnknownUid, env);
    }
  }

  lemma NoIdentityAfterSuffix(ls: seq<string>, i: int)
    requires -1 <= i < |ls|
    ensures NoIdentityAfter(ls, i) <==> NoIdentity(ls[i + 1..])
  {
    var tail := ls[i + 1..];
    if NoIdentityAfter(ls, i) {
      forall j | 0 <= j < |tail| ensures !IsIdentity(tail[j]) {
        assert tail[j] == ls[i + 1 + j];
      }
    }
    if NoIdentity(tail) {
      forall j | i < j < |ls| ensures !IsIdentity(ls[j]) {
        assert tail[j - i - 1] == ls[j];
      }
    }
  }

  lemma ExpectedEntrySnoc(ls: seq<string>, x: string, i: int, ignoreUnknownUid: bool, env: Env)
    requires 0 <= i < |ls|
    ensures ExpectedEntry(ls + [x], i, ignoreUnknownUid, env) ==
            var e := ExpectedEntry(ls, i, ignoreUnknownUid, env);
            if NoIdentityAfter(ls, i) && !IsIdentity(x)
            then e.(sigList := e.sigList + KeptSigsOfLine(x, ignoreUnknownUid, env))
            else e
  {
    assert (ls + [x])[..i] == ls[..i];
    assert (ls + [x])[i] == ls[i];
    assert (ls + [x])[i + 1..] == ls[i + 1..] + [x];
    NoIdentityAfterSuffix(ls, i);
    UntilIdentitySnoc(ls[i + 1..], x);
    KeptSigsSnoc(ls[i + 1..], x, ignoreUnknownUid, env);
  }

  lemma LastIdentitySnoc(ls: seq<string>, x: string, k: string)
    ensures LastIdentity(ls + [x], k) ==
            if IsIdentity(x) && IdentityKey(x) == k then |ls| else LastIdentity(ls, k)
  {
    assert (ls + [x])[..|ls|] == ls;
  }

  /** The latched variables follow one more line. */
  lemma LatchedStep(ls: seq<string>, st: State, x: string, ignoreUnknownUid: bool, env: Env)
    requires Latched(ls, st)
    requires Step(st, x, ignoreUnknownUid, env).Running?
    ensures Latched(ls + [x], Step(st, x, ignoreUnknownUid, env).st)
  {
    PubCountSnoc(ls, x);
    FirstKeyIdSnoc(ls, x);
    FirstFprSnoc(ls, x);
  }

  /** What a running turn on a line that is not `uid`/`uat` does. */
  lemma StepOnOtherLine(st: State, x: string, ignoreUnknownUid: bool, env: Env)
    requires !IsIdentity(x)
    requires Step(st, x, ignoreUnknownUid, env).Running?
    ensures Step(st, x, ignoreUnknownUid, env).st.currUid == st.currUid
    ensures KeptSig(x, ignoreUnknownUid, env).Some? ==> st.currUid in st.listObj
    ensures Step(st, x, ignoreUnknownUid, env).st.listObj ==
            if KeptSig(x, ignoreUnknownUid, env).Some?
            then st.listObj[st.currUid := AppendSig(st.listObj[st.currUid], KeptSig(x, ignoreUnknownUid, env).value)]
            else st.listObj
  {
  }

  /** What a turn on a `uid`/`uat` line does. */
  lemma StepOnIdentity(st: State, x: string, ignoreUnknownUid: bool, env: Env)
    requires IsIdentity(x)
    ensures Step(st, x, ignoreUnknownUid, env) ==
            Running(st.(currUid := IdentityKey(x),
                        listObj := st.listObj[IdentityKey(x) := NewEntry(Tokens(x), st.keyId, st.fpr, env)]))
  {
  }

  lemma NoIdentitySnoc(ls: seq<string>, x: string)
    requires !IsIdentity(x)
    ensures NoIdentity(ls + [x]) <==> NoIdentity(ls)
  {
    var ls' := ls + [x];
    if !NoIdentity(ls') {
      var j :| 0 <= j < |ls'| && IsIdentity(ls'[j]);
      assert j < |ls| && ls[j] == ls'[j];
    }
    if !NoIdentity(ls) {
      var j :| 0 <= j < |ls| && IsIdentity(ls[j]);
      assert ls'[j] == ls[j];
    }
  }

  /** One running turn keeps `currUid` naming the entry of the last `uid`/`uat` line. */
  lemma CurrentStep(ls: seq<string>, st: State, x: string, ignoreUnknownUid: bool, env: Env)
    requires CurrentMatches(ls, st.listObj, st.currUid)
    requires Step(st, x, ignoreUnknownUid, env).Running?
    ensures CurrentMatches(ls + [x], Step(st, x, ignoreUnknownUid, env).st.listObj,
                           Step(st, x, ignoreUnknownUid, env).st.currUid)
  {
    var ls' := ls + [x];
    if IsIdentity(x) {
      StepOnIdentity(st, x, ignoreUnknownUid, env);
      LastIdentitySnoc(ls, x, IdentityKey(x));
    } else {
      StepOnOtherLine(st, x, ignoreUnknownUid, env);
      NoIdentitySnoc(ls, x);
      if !NoIdentity(ls) {
        LastIdentitySnoc(ls, x, st.currUid);
      }
    }
  }

  /** One running turn keeps the entry of key `k` as the reference description gives it. */
  lemma EntryStep(ls: seq<string>, st: State, x: string, k: string, ignoreUnknownUid: bool, env: Env)
    requires Latched(ls, st)
    requires CurrentMatches(ls, st.listObj, st.currUid)
    requires EntryMatches(ls, st.listObj, k, ignoreUnknownUid, env)
    requires Step(st, x, ignoreUnknownUid, env).Running?
    ensures EntryMatches(ls + [x], Step(st, x, ignoreUnknownUid, env).st.listObj, k, ignoreUnknownUid, env)
  {
    var ls' := ls + [x];
    LastIdentitySnoc(ls, x, k);
    if IsIdentity(x) {
      StepOnIdentity(st, x, ignoreUnknownUid, env);
      if IdentityKey(x) == k {
        assert ls'[..|ls|] == ls;
        assert ls'[|ls| + 1..] == [];
        assert ls'[|ls|] == x;
      } else if k in st.listObj {
        ExpectedEntrySnoc(ls, x, LastIdentity(ls, k), ignoreUnknownUid, env);
      }
    } else {
      StepOnOtherLine(st, x, ignoreUnknownUid, env);
      if k in st.listObj {
        var j := LastIdentity(ls, k);
        ExpectedEntrySnoc(ls, x, j, ignoreUnknownUid, env);
        assert !NoIdentity(ls) by {
          assert IsIdentity(ls[j]);
        }
        if k == st.currUid {
          var e := st.listObj[k];
          assert KeptSig(x, ignoreUnknownUid, env).None? ==> e.(sigList := e.sigList + []) == e;
        } else {
          var c := LastIdentity(ls, st.currUid);
          assert IsIdentity(ls[c]) && IdentityKey(ls[c]) == st.currUid;
          assert j < c;
          assert !NoIdentityAfter(ls, j);
        }
      }
    }
  }

  /** The latched variables of a running parse. */
  lemma {:induction false} ParseLinesLatched(ls: seq<string>, ignoreUnknownUid: bool, env: Env)
    ensures ParseLines(ls, ignoreUnknownUid, env).Running? ==>
              Latched(ls, ParseLines(ls, ignoreUnknownUid, env).st)
    decreases |ls|
  {
    if ls != [] {
      var prefix := ls[..|ls| - 1];
      ParseLinesLatched(prefix, ignoreUnknownUid, env);
      assert prefix + [ls[|ls| - 1]] == ls;
      var p := ParseLines(prefix, ignoreUnknownUid, env);
      if p.Running? && Step(p.st, ls[|ls| - 1], ignoreUnknownUid, env).Running? {
        LatchedStep(prefix, p.st, ls[|ls| - 1], ignoreUnknownUid, env);
      }
    }
  }

  /** The current uid of a running parse. */
  lemma {:induction false} ParseLinesCurrent(ls: seq<string>, ignoreUnknownUid: bool, env: Env)
    ensures ParseLines(ls, ignoreUnknownUid, env).Running? ==>
              CurrentMatches(ls, ParseLines(ls, ignoreUnknownUid, env).st.listObj,
                             ParseLines(ls, ignoreUnknownUid, env).st.currUid)
    decreases |ls|
  {
    if ls != [] {
      var prefix := ls[..|ls| - 1];
      ParseLinesCurrent(prefix, ignoreUnknownUid, env);
      assert prefix + [ls[|ls| - 1]] == ls;
      var p := ParseLines(prefix, ignoreUnknownUid, env);
      if p.Running? && Step(p.st, ls[|ls| - 1], ignoreUnknownUid, env).Running? {
        CurrentStep(prefix, p.st, ls[|ls| - 1], ignoreUnknownUid, env);
      }
    }
  }

  /** The entry of key `k` in a running parse. */
  lemma {:induction false} ParseLinesEntry(ls: seq<string>, k: string, ignoreUnknownUid: bool, env: Env)
    ensures ParseLines(ls, ignoreUnknownUid, env).Running? ==>
              EntryMatches(ls, ParseLines(ls, ignoreUnknownUid, env).st.listObj, k, ignoreUnknownUid, env)
    decreases |ls|
  {
    if ls != [] {
      var prefix := ls[..|ls| - 1];
      ParseLinesEntry(prefix, k, ignoreUnknownUid, env);
      ParseLinesLatched(prefix, ignoreUnknownUid, env);
      ParseLinesCurrent(prefix, ignoreUnknownUid, env);
      assert prefix + [ls[|ls| - 1]] == ls;
      var p := ParseLines(prefix, ignoreUnknownUid, env);
      if p.Running? && Step(p.st, ls[|ls| - 1], ignoreUnknownUid, env).Running? {
        EntryStep(prefix, p.st, ls[|ls| - 1], k, ignoreUnknownUid, env);
      }
    }
  }

  // ---------------------------------------------------------------------
  // What `extractSignatures` guarantees.
  // ---------------------------------------------------------------------

  /** The test on the signature type drops exactly the types that begin with `1f` or `1F`. */
  lemma RevokedTypeExactly(sigType: string)
    ensures IsRevokedType(sigType) <==>
            |sigType| >= 2 && sigType[0] == '1' && (sigType[1] == 'f' || sigType[1] == 'F')
  {
    var low := LowerCase(Prefix(sigType, 2));
    if |sigType| >= 2 {
      assert low == [LowerChar(sigType[0]), LowerChar(sigType[1])];
    } else {
      assert |low| < 2;
    }
  }

  /**
   * A kept signature is marked unknown exactly when field 9 of its line is
   * the unknown-signer text; a line too short to have field 9 counts as known.
   */
  lemma KnownSignerFlag(line: string, ignoreUnknownUid: bool, env: Env)
    requires KeptSig(line, ignoreUnknownUid, env).Some?
    ensures !KeptSig(line, ignoreUnknownUid, env).value.sigKnown <==>
              |Tokens(line)| > USERID_ID && Tokens(line)[USERID_ID] == UNKNOWN_SIGNATURE
  {
  }

  /** The loop returns early only at a second `pub` line. */
  lemma {:induction false} StoppedMeansSecondPub(ls: seq<string>, ignoreUnknownUid: bool, env: Env)
    ensures ParseLines(ls, ignoreUnknownUid, env).Stopped? ==> PubCount(ls) >= 2
    decreases |ls|
  {
    if ls != [] {
      var prefix := ls[..|ls| - 1];
      var x := ls[|ls| - 1];
      StoppedMeansSecondPub(prefix, ignoreUnknownUid, env);
      ParseLinesLatched(prefix, ignoreUnknownUid, env);
      assert prefix + [x] == ls;
      PubCountSnoc(prefix, x);
    }
  }

  /**
   * For a listing of one key, the result holds an entry for exactly the keys
   * of its `uid`/`uat` lines, and each entry is the one the last such line
   * with that key files: later lines with the same key replace earlier ones
   * (and their signatures), the key id is field 4 of the `pub` line before
   * it, the fingerprint is the first non-empty field 9 of an `fpr` line
   * before it, and the signatures are the kept `sig` lines after it up to
   * the next `uid`/`uat` line, in order.
   */
  lemma ListingMatchesReference(gpgKeyList: string, ignoreUnknownUid: bool, env: Env)
    requires PubCount(Lines(gpgKeyList)) <= 1
    requires SignatureListing(gpgKeyList, ignoreUnknownUid, env).Ok?
    ensures var ls := Lines(gpgKeyList);
            var m := SignatureListing(gpgKeyList, ignoreUnknownUid, env).listing;
            forall k :: (k in m <==> LastIdentity(ls, k) >= 0)
                        && (k in m ==> m[k] == ExpectedEntry(ls, LastIdentity(ls, k), ignoreUnknownUid, env))
  {
    var ls := Lines(gpgKeyList);
    StoppedMeansSecondPub(ls, ignoreUnknownUid, env);
    var p := ParseLines(ls, ignoreUnknownUid, env);
    assert p.Running?;
    var m := p.st.listObj;
    forall k ensures (k in m <==> LastIdentity(ls, k) >= 0)
                     && (k in m ==> m[k] == ExpectedEntry(ls, LastIdentity(ls, k), ignoreUnknownUid, env))
    {
      ParseLinesEntry(ls, k, ignoreUnknownUid, env);
    }
  }

  /**
   * A second `pub` line ends the parse: the result is that of the text made
   * of the lines before it, which is a listing of one key.
   */
  lemma SecondPubTruncates(gpgKeyList: string, j: nat, ignoreUnknownUid: bool, env: Env)
    requires j < |Lines(gpgKeyList)|
    requires IsPub(Lines(gpgKeyList)[j]) && PubCount(Lines(gpgKeyList)[..j]) == 1
    ensures |Lines(gpgKeyList)[..j]| >= 1
    ensures Lines(Join(Lines(gpgKeyList)[..j], '\n')) == Lines(gpgKeyList)[..j]
    ensures SignatureListing(gpgKeyList, ignoreUnknownUid, env)
            == SignatureListing(Join(Lines(gpgKeyList)[..j], '\n'), ignoreUnknownUid, env)
  {
    var ls := Lines(gpgKeyList);
    var before := ls[..j];
    assert before != [];
    SplitPiecesLackSeparator(gpgKeyList, '\n');
    assert forall i :: 0 <= i < |before| ==> before[i] == ls[i];
    SplitJoin(before, '\n');
    var p := ParseLines(before, ignoreUnknownUid, env);
    if p.Running? {
      ParseLinesLatched(before, ignoreUnknownUid, env);
      ParseLinesNext(ls, j, p.st, ignoreUnknownUid, env);
    } else {
      StoppedStaysStopped(ls, j, ignoreUnknownUid, env);
    }
  }

  /** Every signature in every entry survived both filters. */
  ghost predicate SigsClean(listObj: Listing, ignoreUnknownUid: bool) {
    forall k, i :: k in listObj && 0 <= i < |listObj[k].sigList| ==>
      !IsRevokedType(listObj[k].sigList[i].sigType) && Keeps(listObj[k].sigList[i], ignoreUnknownUid)
  }

  function ListingOf(p: Progress): Listing
    requires !p.Failed?
  {
    if p.Running? then p.st.listObj else p.listObj
  }

  lemma {:induction false} ParseLinesClean(ls: seq<string>, ignoreUnknownUid: bool, env: Env)
    ensures !ParseLines(ls, ignoreUnknownUid, env).Failed? ==>
              SigsClean(ListingOf(ParseLines(ls, ignoreUnknownUid, env)), ignoreUnknownUid)
    decreases |ls|
  {
    if ls != [] {
      var prefix := ls[..|ls| - 1];
      var x := ls[|ls| - 1];
      ParseLinesClean(prefix, ignoreUnknownUid, env);
      var p := ParseLines(prefix, ignoreUnknownUid, env);
      if p.Running? {
        var q := Step(p.st, x, ignoreUnknownUid, env);
        if q.Running? {
          if IsIdentity(x) {
            StepOnIdentity(p.st, x, ignoreUnknownUid, env);
          } else {
            StepOnOtherLine(p.st, x, ignoreUnknownUid, env);
          }
        }
      }
    }
  }

  /**
   * No kept signature has a revoked type (`1f`, `1F`, `1f00`, ...), and with
   * `ignoreUnknownUid` none has the unknown-signer user id.
   */
  lemma SignaturesAreFiltered(gpgKeyList: string, ignoreUnknownUid: bool, env: Env)
    requires SignatureListing(gpgKeyList, ignoreUnknownUid, env).Ok?
    ensures var m := SignatureListing(gpgKeyList, ignoreUnknownUid, env).listing;
            forall k, i :: k in m && 0 <= i < |m[k].sigList| ==>
              !IsRevokedType(m[k].sigList[i].sigType)
              && (ignoreUnknownUid ==> m[k].sigList[i].userId != Str(UNKNOWN_SIGNATURE))
  {
    ParseLinesClean(Lines(gpgKeyList), ignoreUnknownUid, env);
  }

  lemma {:induction false} ParseLinesWithoutEntries(ls: seq<string>, ignoreUnknownUid: bool, env: Env)
    requires forall i :: 0 <= i < |ls| ==> !IsIdentity(ls[i]) && !IsSig(ls[i])
    ensures !ParseLines(ls, ignoreUnknownUid, env).Failed?
    ensures ListingOf(ParseLines(ls, ignoreUnknownUid, env)) == map[]
    decreases |ls|
  {
    if ls != [] {
      var prefix := ls[..|ls| - 1];
      ParseLinesWithoutEntries(prefix, ignoreUnknownUid, env);
    }
  }

  /** A listing with neither `uid`/`uat` nor `sig` lines (the empty text among them) gives the empty map. */
  lemma EmptyWithoutIdentities(gpgKeyList: string, ignoreUnknownUid: bool, env: Env)
    requires forall i :: 0 <= i < |Lines(gpgKeyList)| ==>
               !IsIdentity(Lines(gpgKeyList)[i]) && !IsSig(Lines(gpgKeyList)[i])
    ensures SignatureListing(gpgKeyList, ignoreUnknownUid, env) == Ok(map[])
  {
    ParseLinesWithoutEntries(Lines(gpgKeyList), ignoreUnknownUid, env);
  }

  /** Records of any other type (`tru`, `sub`, an empty line, ...) change nothing. */
  lemma OtherRecordsIgnored(ls: seq<string>, x: string, ignoreUnknownUid: bool, env: Env)
    requires !IsPub(x) && !IsFpr(x) && !IsIdentity(x) && !IsSig(x)
    ensures ParseLines(ls + [x], ignoreUnknownUid, env) == ParseLines(ls, ignoreUnknownUid, env)
  {
    assert (ls + [x])[..|ls|] == ls;
  }

  /**
   * What a `sig` line does to a running parse: one too short to have a
   * signature type throws; a kept signature throws exactly when no
   * `uid`/`uat` line came before it; a dropped one changes nothing.
   */
  lemma SigLineOutcome(ls: seq<string>, x: string, ignoreUnknownUid: bool, env: Env)
    requires ParseLines(ls, ignoreUnknownUid, env).Running?
    requires IsSig(x)
    ensures |Tokens(x)| <= SIG_TYPE_ID ==> ParseLines(ls + [x], ignoreUnknownUid, env) == Failed(SigTypeMissing)
    ensures KeptSig(x, ignoreUnknownUid, env).Some? ==>
              (ParseLines(ls + [x], ignoreUnknownUid, env) == Failed(NoCurrentUid) <==> NoIdentity(ls))
    ensures |Tokens(x)| > SIG_TYPE_ID && KeptSig(x, ignoreUnknownUid, env).None? ==>
              ParseLines(ls + [x], ignoreUnknownUid, env) == ParseLines(ls, ignoreUnknownUid, env)
  {
    var st := ParseLines(ls, ignoreUnknownUid, env).st;
    assert (ls + [x])[..|ls|] == ls;
    assert ParseLines(ls + [x], ignoreUnknownUid, env) == Step(st, x, ignoreUnknownUid, env);
    var t := Tokens(x);
    assert t[ENTRY_ID] == "sig";
    if KeptSig(x, ignoreUnknownUid, env).Some? {
      ParseLinesCurrent(ls, ignoreUnknownUid, env);
      ParseLinesEntry(ls, st.currUid, ignoreUnknownUid, env);
      assert Step(st, x, ignoreUnknownUid, env).Failed? <==> st.currUid !in st.listObj;
    }
  }
}
