# Enigmail GnuPG crypto API: signature listing and minimal key export

This project models the GnuPG back end of Enigmail's crypto API,
`package/cryptoAPI/gnupg.js`, in Dafny. It has three modules.

- `JsText` (`js_text.dfy`) holds the JavaScript values and string built-ins the
  code relies on:
  - `undefined`, `null` and strings, with JavaScript truthiness;
  - the coercion of a value to an object key;
  - `split` on one character, with `Join` as its inverse;
  - reading an array past its end;
  - `substr(0, n)` and `toLowerCase`.
- `SignatureParser` (`signature_parser.dfy`) models `extractSignatures`. It
  parses GnuPG's colon-separated key listing (`--with-colons --list-sig`) into
  a map from the user-id hash (field 7 of a `uid`/`uat` record) to an entry.
  Each entry holds the user id, the key id, the fingerprint, the creation date
  and the certification signatures that follow the record.
  - The method `ExtractSignatures` is the source's loop, with its four state
    variables. It is proved to compute `SignatureListing`, the same loop
    written as a fold over the lines.
  - Separate lemmas relate that fold to a definition of each entry that does
    not run the state machine.
  - A `sig` line with no current entry throws in the source. Here it gives
    `Err(NoCurrentUid)`.
  - A `sig` line too short to have a signature type also throws. Here it
    gives `Err(SigTypeMissing)`.
- `GnuPGApi` (`gnupg_api.dfy`) models the class `GnuPGCryptoAPI`.
  - `GetKeySignatures` chooses the result from the engine's exit code, its
    BAD_SIGNATURE flag and its output.
  - `GetMinimalPubKey` runs the engine's minimal export while the memo field
    `minimalKeyBlock` is falsy. It checks the export in one of two ways,
    depending on the engine version. It then strips the key and memoizes its
    base64 form.
  - `MinimalPubKey` states one call on a given memo. `Session` states a
    sequence of calls on one object.

The engine runs, the localized strings and the other collaborators are
parameters, not code:
- `convertGpgToUnicode`, `getDateTime` and the photo label make up the
  parser's `Env`.
- The export's output, the `export-result` feature, `getStrippedKey`, `btoa`
  and the two failure messages make up `ExportEnv`.

Points of the code's behaviour the model keeps:
- The map is keyed by field 7 of the `uid`/`uat` record; field 7 holds the
  user-id hash, not the user-id text.
- The fingerprint latch is taken from the first `fpr` record whose field 9 is
  not `""`. If that field is missing, the latch holds `undefined` for good.
- A `sig` record before any `uid`/`uat` record throws when it has no field
  10, or when the signature survives both filters; a dropped signature is
  skipped.
- A cache hit in `getMinimalPubKey` returns the memo whatever fingerprint is
  asked for.

## Model

| member | source | states |
|---|---|---|
| SignatureParser.ExtractSignatures | package/cryptoAPI/gnupg.js:195-260 | The loop over the lines gives the listing, the early return at a second `pub`, or the error the source throws. It agrees with `SignatureListing` on every input. |
| SignatureParser.ListingMatchesReference | package/cryptoAPI/gnupg.js:198-256 | For a listing of one key, there is an entry for exactly the field-7 keys of the `uid`/`uat` lines. Each entry is built from the last such line: its user id comes from that line (the photo label for `uat`); its key id is field 4 of the `pub` line (`""` if none came before); its fingerprint is field 9 of the first earlier `fpr` line whose field 9 is not `""` (`undefined` when that line has no field 9, `""` when there is no such line); its signatures are the kept `sig` lines after it, up to the next `uid`/`uat` line, in order. A repeated key discards the earlier signatures. |
| SignatureParser.SecondPubTruncates | package/cryptoAPI/gnupg.js:217-221 | The result of a listing with a second `pub` line equals the result of the text made of the lines before that line. |
| SignatureParser.StoppedMeansSecondPub | package/cryptoAPI/gnupg.js:217-220 | The loop returns early only after at least two `pub` lines. |
| SignatureParser.RevokedTypeExactly | package/cryptoAPI/gnupg.js:240 | The test on the signature type drops exactly the types that begin with `1f` or `1F` (`1f`, `1Fx`), and keeps `10`, `13x` and types shorter than two characters. |
| SignatureParser.SignaturesAreFiltered | package/cryptoAPI/gnupg.js:240-254 | No signature in any entry has a dropped type. With `ignoreUnknownUid`, none has the user id `[User ID not found]`. |
| SignatureParser.KnownSignerFlag | package/cryptoAPI/gnupg.js:248 | A kept signature has `sigKnown` false exactly when field 9 of its line is `[User ID not found]`. |
| SignatureParser.SigLineOutcome | package/cryptoAPI/gnupg.js:239-255 | On a running parse, a `sig` line without field 10 throws. A kept signature throws exactly when no `uid`/`uat` line came before it. A dropped signature changes nothing. |
| SignatureParser.OtherRecordsIgnored | package/cryptoAPI/gnupg.js:216-256 | A line of any other record type (`tru`, `sub`, empty) leaves the parse as it was. |
| SignatureParser.EmptyWithoutIdentities | package/cryptoAPI/gnupg.js:198 | A listing with no `uid`/`uat` and no `sig` lines, the empty text among them, gives the empty map. |
| GnuPGApi.GnuPGCryptoAPI.constructor | package/cryptoAPI/gnupg.js:67-70 | A new object is named `GnuPG`, has no memo (`undefined`) and has run no engine. |
| GnuPGApi.GetGnuPGAPI | package/cryptoAPI/gnupg.js:176-178 | It returns a fresh object in that initial state. |
| GnuPGApi.GnuPGCryptoAPI.GetKeySignatures | package/cryptoAPI/gnupg.js:80-105 | It gives `""` exactly when BAD_SIGNATURE is set and the exit code is non-zero, and `null` exactly when that is not so and the output is empty. Otherwise it gives the parser's listing, or rejects with the parser's error. |
| GnuPGApi.SearchExported | package/cryptoAPI/gnupg.js:140-141 | The search gives the first position where a line of standard error starts with `[GNUPG:] EXPORTED ` and the fingerprint, or -1 when there is none. Lines end at `\n`, `\r`, U+2028 and U+2029. |
| GnuPGApi.ExportedLineFound | package/cryptoAPI/gnupg.js:140-141 | The search succeeds exactly when some line of standard error starts with the status line. |
| GnuPGApi.MinimalPubKey | package/cryptoAPI/gnupg.js:119-172 | For any memo and any outputs: the key data returned is the new memo; the exit code is 0 exactly when the new memo is truthy, and is otherwise 1 or 2; exit code 0 comes with no message, and exit code 2 leaves the memo unchanged; the engine runs exactly when the old memo is falsy; a truthy memo is kept. |
| GnuPGApi.GnuPGCryptoAPI.GetMinimalPubKey | package/cryptoAPI/gnupg.js:119-172 | The method updates `minimalKeyBlock` and the engine-run count, and returns what `MinimalPubKey` gives for the old memo. On a cache hit it returns exit code 0 and the memo, and changes nothing. |
| GnuPGApi.ExtractionFailure | package/cryptoAPI/gnupg.js:138-154 | When the memo is falsy and the check fails, the call gives exit code 2 with the extraction message and leaves the memo unchanged. The check fails when the feature is on and no line of standard error starts with the status line, or when the feature is off and the output is shorter than 50 characters. |
| GnuPGApi.NoUsableSubkey | package/cryptoAPI/gnupg.js:156-166 | After a passing check, a stripper that returns nothing, or bytes that encode to `""`, gives exit code 1 with the no-subkey message. The memo becomes `null` or `""` respectively. |
| GnuPGApi.ExportSuccess | package/cryptoAPI/gnupg.js:156-170 | After a passing check, a non-empty encoding of the stripped key becomes the memo and the key data, with exit code 0. |
| GnuPGApi.MemoizedSession | package/cryptoAPI/gnupg.js:128-170 | Once the memo is truthy, every later call returns exit code 0 and the memo, runs no engine and keeps the memo. |
| GnuPGApi.SuccessIsFinal | package/cryptoAPI/gnupg.js:128-170 | After a call that returns exit code 0, every later call on the same object returns the same result object and runs no engine, whatever its fingerprint. |
| GnuPGApi.EngineRunsOnlyUntilSuccess | package/cryptoAPI/gnupg.js:128-133 | A call that runs the engine comes after no successful call. |

## Left out

- ui/content/autocryptInitiateBackup.js: window and wizard glue over the mail client's account manager. It has no logic of its own.
- Running the engine and building its arguments (`getStandardArgs`, the flag lists, splitting `keyId` on spaces). What the engine returns is a parameter.
- Logging, and the decoration of `errorMsg` in `getKeySignatures`. Neither changes the returned value.
- `async`/`await` and concurrent calls of `getMinimalPubKey` on one object. Calls are modelled one after the other.
- `getStrippedKey`, `convertGpgToUnicode`, `EnigmailTime.getDateTime`, `EnigmailLocale.getString`, `btoa` and `String.fromCharCode` are parameters. Their code is not part of this model.
- GnuPGApi.GnuPGCryptoAPI.GetKeySignatures: the BAD_SIGNATURE bit of `statusFlags` is a boolean. The constants module that defines it is not part of this model.
- SignatureParser.ExtractSignatures: the map is a Dafny `map`. It does not model the enumeration order of a JavaScript object, or the keys `__proto__` and the like, which a plain object treats specially.
- SignatureParser.IsRevokedType: `toLowerCase` is modelled for ASCII letters only. That is enough for the comparison with `1f`, since only `F` lower-cases to `f`.
- GnuPGApi.SearchExported: the fingerprint is matched as literal text. A fingerprint holding regular-expression metacharacters would be read as a pattern by the source, and that case is not modelled.
- GnuPGApi.GnuPGCryptoAPI.GetMinimalPubKey: lengths and positions (the 50-character test on standard output, the index the search returns) are counted in Unicode code points, where JavaScript counts UTF-16 code units; the two agree on the ASCII text of an armored key block and of GnuPG's status lines, and differ only on text with characters outside the Basic Multilingual Plane.
- GnuPGApi.GnuPGCryptoAPI.GetMinimalPubKey: a stripped key too long for `String.fromCharCode.apply` would throw in the source. That case is not modelled.
