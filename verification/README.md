# Domintell EcoPilot device library and firmware updater, in Dafny

This project models the device library of the Domintell EcoPilot Home Assistant integration.
It covers three parts.

- The firmware updater. It resolves the latest firmware from a per-model manifest and probes the binary's size with a HEAD request.
  It then downloads the binary while checking its SHA-256 digest, and streams it to the device over a raw TCP connection on port 9000.
  When the Content-Length header equals the body's length, progress runs from 0 to 50 during the download and from 50 to 100 during the transfer.
  The percentages are computed against the announced size, so a header below the body's length takes them past 50 and past 100.
  For example, 2048 bytes sent against an announced 1500 report 118 (`FwTransfer.ShortAnnouncedSizeOvershoots`).
- The device client. It covers the bearer-token guard, request building, HTTP status dispatch, the device cache,
  the validation of partial state/config updates, the firmware-update command and the token lifecycle.
- The device records and constant tables. These are the model capability predicates, the TLS verification host name,
  hex-encoded meter identifiers, the model-to-identifier and model-to-name tables, and the tank-shape tables.

Everything is a pure function over abstract inputs.
An HTTP answer is a datatype holding the status, the headers that matter, and the parsed JSON body or the body's chunks.
A TCP stream is a datatype saying whether it opened and at which `drain` it fails.
Each operation returns its result, or the error kind it raises, together with the requests or socket operations it issued and the progress reports it made.
The SHA-256 digest is a function parameter `sha: seq<byte> -> string`.
Where a property needs the digest to be hexadecimal, the lemma requires that of it.

Files (one module each):

- `wrappers.dfy`: `Option` and `Result`.
- `errors.dfy`: the library's exception classes. It also holds the Python built-in exceptions that escape the code (`ValueError`, `TypeError`, `AttributeError`, and `asyncio.TimeoutError`).
- `json.dfy`: JSON values, Python truthiness and `dict.get`.
- `bytes.dfy`: bytes, concatenation of chunks and Python slicing.
- `text.dfy`: the Python string operations the code relies on.
  These are ASCII `lower`/`upper`, `startswith`, substring `in`, the code-point ordering behind `<`/`>` on `str`, `strip`, `int()` on decimal text, `bytes.hex` and `bytes.fromhex`.
- `api_const.dfy`, `tank_shapes.dfy`: the constant tables.
- `models.dfy`: host name, device post-processing, capability predicates, hex decoding and the update-payload check.
- `client.dfy`: the client calls, threading a `Client` record (host, token, cached device).
- `fw_metadata.dfy`, `fw_download.dfy`, `fw_transfer.dfy`, `fw_pipeline.dfy`: the firmware updater, and the corrected definitions described under Findings.

Behaviours of the updater's code that a reader might not expect, all modelled as written:

- The version gate is Python's string `>`, which is code-point lexicographic, so "1.10.0" is not newer than "1.9.0" (`FwMetadata.VersionGateIsLexicographic`).
  The update entity's AwesomeVersion comparison is left out.
- Some malformed manifests make the resolver return "no update" (`None`) rather than raise `MetadataError`.
  This happens when `latest_version` is missing, or its version, url or integrity is empty, or the integrity uses a scheme other than `sha256:`.
- Some manifests make the resolver raise Python's own `AttributeError` or `TypeError` rather than a metadata error.
  This happens when the manifest is not an object, when `latest_version` is a non-empty non-object, or when the integrity or version is a non-string.
- The stored integrity keeps its `sha256:` prefix (see Findings).
- A missing `Content-Length` makes the transfer send nothing (see Findings).

## Model

| member | source | states |
|---|---|---|
| `FwMetadata.ToDict` | custom_components/domintell_ecopilot/ecopilot_api/fw_update.py:38-48 | the exported mapping has exactly the seven metadata keys, and reading it back gives the same record |
| `FwMetadata.ProbeSize` | custom_components/domintell_ecopilot/ecopilot_api/fw_update.py:63-99 | the size is known exactly when the HEAD answer is 200 with a Content-Length that `int()` accepts, and then it is that number; every other case, including network failure, gives unknown rather than an error |
| `FwMetadata.ProbeSizeReadsContentLength` | custom_components/domintell_ecopilot/ecopilot_api/fw_update.py:76-82 | a 200 answer announcing n bytes makes the probe report n |
| `FwMetadata.MetadataUrl` | custom_components/domintell_ecopilot/ecopilot_api/fw_update.py:108 | the manifest URL is the base URL, then the lower-cased model, then "/versions.json" |
| `FwMetadata.MetadataUrlIgnoresCase` | custom_components/domintell_ecopilot/ecopilot_api/fw_update.py:108 | two models share a manifest URL exactly when they agree up to letter case |
| `FwMetadata.ResolveLatest` | custom_components/domintell_ecopilot/ecopilot_api/fw_update.py:101-184 | the manifest GET is always issued first; a metadata error arises exactly when the GET fails, returns non-200 or is not JSON; the only other errors are `AttributeError`/`TypeError`; an offered update names the requested product, has a version that is greater as a string, a `sha256:` integrity, a truthy url whose HEAD gave its size |
| `FwMetadata.ProductMismatchIsNoUpdate` | custom_components/domintell_ecopilot/ecopilot_api/fw_update.py:128-133 | a manifest for another product (case-sensitive) gives "no update" after the one GET |
| `FwMetadata.IncompleteManifestIsNoUpdate` | custom_components/domintell_ecopilot/ecopilot_api/fw_update.py:135-152 | a missing latest-version record, or a falsy version, url or integrity, gives "no update", not an error |
| `FwMetadata.OtherIntegritySchemeIsNoUpdate` | custom_components/domintell_ecopilot/ecopilot_api/fw_update.py:154-158 | an integrity whose lower-cased form does not start with "sha256:" gives "no update" |
| `FwMetadata.VersionGate` | custom_components/domintell_ecopilot/ecopilot_api/fw_update.py:160-184 | for a well-formed manifest an update is offered exactly when the manifest version is greater as a string; the offer carries the model, version, url, the unstripped integrity, the probed size, the release notes (default "") and the changelog |
| `FwMetadata.VersionGateIsLexicographic` | custom_components/domintell_ecopilot/ecopilot_api/fw_update.py:171 | under the string gate "1.10.0" is not newer than "1.9.0", and "1.9.0" counts as newer than "1.10.0" |
| `FwDownload.DownloadPercent` | custom_components/domintell_ecopilot/ecopilot_api/fw_update.py:232-236 | the percentage is the floor of received*50/total; it is at most 50 while received is at most total, and exactly 50 at total |
| `FwDownload.DownloadReports` | custom_components/domintell_ecopilot/ecopilot_api/fw_update.py:227-236 | one downloading report per chunk when a callback is given and the total is non-zero, otherwise none; report i is the download percentage of the bytes received up to and including chunk i |
| `FwDownload.AnnouncedSize` | custom_components/domintell_ecopilot/ecopilot_api/fw_update.py:225 | an absent Content-Length counts as 0; one that `int()` accepts gives the number it reads; one that `int()` rejects raises `ValueError` |
| `FwDownload.Download` | custom_components/domintell_ecopilot/ecopilot_api/fw_update.py:207-251 | the GET goes to the given URL; it succeeds exactly on a 200 answer with a readable Content-Length, a complete body and a digest equal up to case, and then returns the concatenated chunks and the announced size; `DownloadError` exactly when the server is unreachable, the status is not 200, or a client error breaks the body; `asyncio.TimeoutError`, uncaught, exactly on a timeout; `ValueError` exactly on a 200 answer whose Content-Length `int()` rejects; `IntegrityError` exactly on a complete body whose digest differs; the reports are those of the chunks received, and there are none when the body is not read |
| `FwDownload.DownloadProgressMonotone` | custom_components/domintell_ecopilot/ecopilot_api/fw_update.py:227-236 | download progress never decreases |
| `FwDownload.DownloadProgressBounded` | custom_components/domintell_ecopilot/ecopilot_api/fw_update.py:232-236 | while the body is no longer than announced, progress stays within 0..50, and a body of exactly the announced size ends at 50 |
| `FwDownload.DigestIgnoresCase` | custom_components/domintell_ecopilot/ecopilot_api/fw_update.py:241-244 | the letter case of the expected digest does not affect the download |
| `FwTransfer.ChunkCount` | custom_components/domintell_ecopilot/ecopilot_api/fw_update.py:274 | `range(0, total, 1024)` runs n times, the least n with 1024*n >= total |
| `FwTransfer.TransferPercent` | custom_components/domintell_ecopilot/ecopilot_api/fw_update.py:282-288 | the transfer percentage is 50 plus the floor of sent*50/total; it is at most 100 while sent is at most total, and exactly 100 at total |
| `FwTransfer.TransferReports` | custom_components/domintell_ecopilot/ecopilot_api/fw_update.py:281-288 | one transferring report per packet sent when a callback is given, none otherwise; report i is the transfer percentage of `total_sent` after packet i |
| `FwTransfer.SendFirmware` | custom_components/domintell_ecopilot/ecopilot_api/fw_update.py:253-305 | it connects to host:port first; it succeeds exactly when the stream opens and no drain fails; a refusal and any other fault both give `TransferError`; the stream is closed last exactly when it opened (closing itself assumed to succeed); on success the packets are followed by the end-of-stream marker and the close; an opened stream reports after each packet drained (all of them, or those before a failing chunk drain), with the values of `TransferReports`, and a stream that did not open reports nothing |
| `FwTransfer.WritesCarryPrefix` | custom_components/domintell_ecopilot/ecopilot_api/fw_update.py:271-279 | the first k packets carry the first min(len(data), 1024*k) bytes of the firmware (that `total_sent` equals that count is `FwTransfer.SentAfterCounts`) |
| `FwTransfer.ChunkIsSegment` | custom_components/domintell_ecopilot/ecopilot_api/fw_update.py:275 | packet k is the firmware from byte 1024*k to byte 1024*(k+1), cut at its end |
| `FwTransfer.SentAfterCounts` | custom_components/domintell_ecopilot/ecopilot_api/fw_update.py:279 | `total_sent` after k packets is min(len(data), 1024*k) |
| `FwTransfer.TransferDeliversAnnouncedBytes` | custom_components/domintell_ecopilot/ecopilot_api/fw_update.py:274-292 | a completed transfer wrote data[:min(len(data), 1024*n)] for the n packets of the announced size, which is the whole firmware when the announced size equals its length |
| `FwTransfer.ShortAnnouncedSizeOvershoots` | custom_components/domintell_ecopilot/ecopilot_api/fw_update.py:284-288 | 2048 bytes sent against an announced 1500 report 118%, beyond the 100 the scale is meant to end at |
| `FwTransfer.FaultClosesAfterPartialWrite` | custom_components/domintell_ecopilot/ecopilot_api/fw_update.py:296-305 | a fault at drain k leaves k+1 packets written, no end-of-stream marker, the stream closed, and k progress reports |
| `FwTransfer.TransferPercentMonotone` | custom_components/domintell_ecopilot/ecopilot_api/fw_update.py:284-288 | more bytes sent never means a lower percentage |
| `FwTransfer.TransferProgressMonotone` | custom_components/domintell_ecopilot/ecopilot_api/fw_update.py:274-288 | transfer progress never decreases |
| `FwTransfer.TransferProgressBounded` | custom_components/domintell_ecopilot/ecopilot_api/fw_update.py:279-288 | with an announced size at least the firmware's length the progress stays within 100, and ends at 100 when the size is exact |
| `FwTransfer.ZeroSizeSendsNothing` | custom_components/domintell_ecopilot/ecopilot_api/fw_update.py:274-292 | with an announced size of 0 no packet is written, yet the end-of-stream marker goes out and the transfer succeeds |
| `FwPipeline.DownloadAndTransfer` | custom_components/domintell_ecopilot/ecopilot_api/fw_update.py:186-205 | the firmware is fetched from the metadata's URL; a failed download is returned as is, with no socket operation; after a successful download the transfer receives the downloaded bytes and the announced Content-Length (not the byte count) and sends to port 9000; the reports are the download's followed by the transfer's |
| `FwPipeline.TimeoutEscapesRun` | custom_components/domintell_ecopilot/ecopilot_api/fw_update.py:219-239 | a timeout during the download ends the run with `asyncio.TimeoutError` rather than `DownloadError`, without contacting the device, keeping the reports already made |
| `FwPipeline.PrefixedIntegrityNeverMatches` | custom_components/domintell_ecopilot/ecopilot_api/fw_update.py:241-244 | a hex digest never equals, in any letter case, an integrity string that starts with "sha256:" |
| `FwPipeline.ResolvedUpdateNeverInstalls` | custom_components/domintell_ecopilot/ecopilot_api/fw_update.py:171-205 | any update the resolver offers fails before the device is contacted, for every server answer, whenever the digest function yields hex |
| `FwPipeline.AsWrittenUpdateNeverInstalls` | custom_components/domintell_ecopilot/ecopilot_api/fw_update.py:154-181 | a manifest whose integrity is "sha256:" followed by the firmware's true digest still ends in an integrity error with no socket operation |
| `FwPipeline.ResolveLatestCorrected` | custom_components/domintell_ecopilot/ecopilot_api/fw_update.py:154-155 | the corrected resolver fetches and decides exactly as the original, but the offered integrity is the stripped digest after "sha256:" |
| `FwPipeline.CorrectedUpdateInstalls` | custom_components/domintell_ecopilot/ecopilot_api/fw_update.py:154-155 | with the corrected resolver and run, a manifest carrying "sha256:" plus the firmware's digest installs the whole firmware on the device |
| `FwPipeline.MissingLengthSendsNothing` | custom_components/domintell_ecopilot/ecopilot_api/fw_update.py:225 | a verified download without Content-Length produces a successful run that wrote no firmware byte |
| `FwPipeline.DownloadAndTransferCorrected` | custom_components/domintell_ecopilot/ecopilot_api/fw_update.py:198-205 | the corrected run transfers the downloaded byte count rather than the announced size; otherwise it matches the original |
| `FwPipeline.CorrectedRunDeliversFirmware` | custom_components/domintell_ecopilot/ecopilot_api/fw_update.py:198-205 | a successful corrected run has written exactly the downloaded firmware to the device |
| `FwPipeline.TransferReportsOfRun` | custom_components/domintell_ecopilot/ecopilot_api/fw_update.py:281-288 | transferring the whole firmware reports non-decreasing values of at least 50, ending at 100 on success |
| `FwPipeline.CorrectedProgressSweep` | custom_components/domintell_ecopilot/ecopilot_api/fw_update.py:197-205 | with a correct Content-Length all progress of a run is non-decreasing, and a successful run ends at 100 |
| `Models.VerificationHostname` | custom_components/domintell_ecopilot/ecopilot_api/models.py:15-24 | `ValueError` exactly for a model missing from MODEL_TO_ID; otherwise the model's identifier, an underscore, then the serial |
| `Models.VerificationHostnameInjective` | custom_components/domintell_ecopilot/ecopilot_api/models.py:15-24 | two devices share a verification host name only if they have the same model and serial |
| `Models.PostDeserialize` | custom_components/domintell_ecopilot/ecopilot_api/models.py:88-94 | an unknown model fails with `ValueError`; otherwise the model name is the MODEL_TO_NAME entry, the id is the verification host name, and nothing else changes |
| `Models.CapabilityMatrix` | custom_components/domintell_ecopilot/ecopilot_api/models.py:96-142 | for the seven known models: state is unsupported exactly for ecoP1 and tankSense, config exactly for ecoP1, system exactly for tankSense; reboot, identify and update are always supported |
| `Models.KnownModelsAreTheEnumeration` | custom_components/domintell_ecopilot/ecopilot_api/models.py:108-142 | reboot/identify/update accept exactly the seven model strings, which are exactly the MODEL_TO_ID keys |
| `Models.SupportsConfigIsSubstringTest` | custom_components/domintell_ecopilot/ecopilot_api/models.py:100-102 | config is refused exactly for model strings that occur inside "ecoP1", so "P1" is refused too |
| `Models.PostSerialize` | custom_components/domintell_ecopilot/ecopilot_api/models.py:36-43 | an empty update raises `ValueError`; a non-empty one is passed through unchanged |
| `Models.HexToReadable` | custom_components/domintell_ecopilot/ecopilot_api/models.py:366-379 | `None` stays `None`; text that `bytes.fromhex` accepts and that decodes to ASCII is replaced by its decoding (so "4E47" gives "NG"); any changed result is such a decoding |
| `Models.HexToReadableRoundTrip` | custom_components/domintell_ecopilot/ecopilot_api/models.py:366-379 | decoding the hex rendering of an ASCII text gives the text back |
| `Models.FromHexRejectsForeign` | custom_components/domintell_ecopilot/ecopilot_api/models.py:377-378 | a character that is neither a hex digit nor whitespace makes `bytes.fromhex` fail |
| `Models.HexToReadableKeepsNonHex` | custom_components/domintell_ecopilot/ecopilot_api/models.py:377-379 | text that is not hexadecimal is returned unchanged |
| `Client.BuildRequest` | custom_components/domintell_ecopilot/ecopilot_api/__init__.py:316-322 | the URL is "https://" + host + path; the JSON content type is always present; the bearer header is present exactly when a token is set |
| `Client.Dispatch` | custom_components/domintell_ecopilot/ecopilot_api/__init__.py:324-358 | no answer raises `RequestError`; 401 raises `UnauthorizedError` and 404 raises `NotFoundError`, each exactly on that status; 204 yields no body; any other status passes through with the body |
| `Client.RaiseWithBody` | custom_components/domintell_ecopilot/ecopilot_api/__init__.py:189-192 | the error raised while reading an error body: the given kind when the body is a JSON object, `TypeError` when there is no body, `ValueError` when it is not JSON, `AttributeError` when it is JSON but not an object |
| `Client.Precheck` | custom_components/domintell_ecopilot/ecopilot_api/__init__.py:54-66 | no token raises `UnauthorizedError`; otherwise `UnsupportedError` exactly when a device is cached and lacks the capability; otherwise nothing |
| `Client.FetchDevice` | custom_components/domintell_ecopilot/ecopilot_api/__init__.py:97-108 | a cached device is returned without a request unless the cache is reset; otherwise /api/info is requested, and it succeeds exactly when dispatch succeeds with a body that decodes to a device of a known model; the result is then that device after post-deserialisation, and it is cached; a dispatch error is raised as is |
| `Client.FetchMeasurement` | custom_components/domintell_ecopilot/ecopilot_api/__init__.py:110-117 | guarded by the token; with a token it requests /api/data and succeeds exactly when dispatch does, returning the body, or raises the dispatch error |
| `Client.DropNone` | custom_components/domintell_ecopilot/ecopilot_api/__init__.py:129-130 | the payload holds exactly the arguments whose value is not `None`, with their values |
| `Client.ReadOrUpdate` | custom_components/domintell_ecopilot/ecopilot_api/__init__.py:125-147 | refused calls send nothing; with arguments of which none names a field it raises `ValueError`; otherwise it PUTs the filtered payload, or GETs when there are no arguments |
| `Client.State` | custom_components/domintell_ecopilot/ecopilot_api/__init__.py:119-148 | `ValueError` exactly when the guards pass and no argument names a StateUpdate field; when the guards pass, no arguments GET /api/state and arguments naming a field PUT the non-`None` ones there; it succeeds exactly when the guards and validation pass and dispatch succeeds, returning the body |
| `Client.Config` | custom_components/domintell_ecopilot/ecopilot_api/__init__.py:150-179 | `ValueError` exactly when the guards pass and no argument names a ConfigUpdate field; when the guards pass, no arguments GET /api/config and arguments naming a field PUT the non-`None` ones there; it succeeds exactly when the guards and validation pass and dispatch succeeds, returning the body |
| `Client.UpdatePayloadKeepsUnknownKeys` | custom_components/domintell_ecopilot/ecopilot_api/__init__.py:129-142 | unknown keys travel with a valid one, and a `None`-valued field passes validation but is left out of the payload |
| `Client.System` | custom_components/domintell_ecopilot/ecopilot_api/__init__.py:181-195 | guarded by token and capability; when the guards pass it GETs /api/system; status 200 returns the body; any other dispatched status raises the error read from the body with `RequestError` as its kind; a dispatch error is raised as is |
| `Client.Command` | custom_components/domintell_ecopilot/ecopilot_api/__init__.py:197-232 | a refused command sends nothing; otherwise it sends one request, succeeds exactly when dispatch does, and otherwise raises the dispatch error |
| `Client.Identify` | custom_components/domintell_ecopilot/ecopilot_api/__init__.py:197-206 | guarded by token and capability; when the guards pass it PUTs /api/system/identify, and it succeeds exactly when they pass and dispatch succeeds, otherwise raising the dispatch error |
| `Client.Reboot` | custom_components/domintell_ecopilot/ecopilot_api/__init__.py:208-217 | guarded by token and capability; when the guards pass it PUTs /api/system/reboot, and it succeeds exactly when they pass and dispatch succeeds, otherwise raising the dispatch error |
| `Client.UpdatePayload` | custom_components/domintell_ecopilot/ecopilot_api/__init__.py:226-230 | fw_size is present exactly when it is not `None`, and so is fw_signature; no other key |
| `Client.Update` | custom_components/domintell_ecopilot/ecopilot_api/__init__.py:219-232 | guarded by token and capability; when the guards pass it POSTs the payload to /api/system/firmware/update, and it succeeds exactly when they pass and dispatch succeeds, otherwise raising the dispatch error |
| `Client.DecodeToken` | custom_components/domintell_ecopilot/ecopilot_api/__init__.py:252-255 | the token is exactly the string under "token" of a JSON object; such a body always yields it; no body is a decode error |
| `Client.GetToken` | custom_components/domintell_ecopilot/ecopilot_api/__init__.py:234-258 | it POSTs "local/<name>"; 403 raises `UnauthorizedError`; any other status outside 200/201 raises an error of another kind, `InvalidUserNameError` when the body is a JSON object; a 200/201 answer carrying a string token returns and stores that token, and only such an answer succeeds |
| `Client.DeleteToken` | custom_components/domintell_ecopilot/ecopilot_api/__init__.py:260-278 | guarded by the token; it succeeds exactly on status 200; deleting our own token forgets it, deleting another's keeps ours |
| `Client.DeviceIsCached` | custom_components/domintell_ecopilot/ecopilot_api/__init__.py:97-108 | after a successful fetch, asking again without reset returns the same device and sends nothing |
| `Client.TokenLifecycle` | custom_components/domintell_ecopilot/ecopilot_api/__init__.py:234-278 | after deleting its own token the client refuses guarded calls without a request; a new token lets them through again |
| `ApiConst.ParseModel` | custom_components/domintell_ecopilot/ecopilot_api/const.py:12-21 | `Model(s)` succeeds exactly for the seven model strings and yields the model with that string |
| `ApiConst.ModelValueInjective` | custom_components/domintell_ecopilot/ecopilot_api/const.py:15-21 | the seven model strings are pairwise distinct |
| `ApiConst.ModelToIdTotal` | custom_components/domintell_ecopilot/ecopilot_api/const.py:24-32 | MODEL_TO_ID is defined exactly for the seven models |
| `ApiConst.ModelToIdInjectiveLowerCase` | custom_components/domintell_ecopilot/ecopilot_api/const.py:24-32 | the MODEL_TO_ID identifiers are pairwise distinct and lower-case |
| `ApiConst.ModelToNameTotal` | custom_components/domintell_ecopilot/ecopilot_api/const.py:34-42 | MODEL_TO_NAME is defined exactly for the seven models |
| `ApiConst.FirmwareEndpoints` | custom_components/domintell_ecopilot/ecopilot_api/const.py:8-9 | the manifest base URL ends with "/" and the firmware port is 9000 |
| `TankShapes.InvertedIsInverse` | custom_components/domintell_ecopilot/const.py:54 | inverting a dict with distinct keys and values yields a two-sided inverse |
| `TankShapes.TankShapeMapShape` | custom_components/domintell_ecopilot/const.py:43-52 | TANK_SHAPE_MAP maps exactly 0..3 to four distinct names, each a TankShape value |
| `TankShapes.TankShapeReverseIsInverse` | custom_components/domintell_ecopilot/const.py:54 | reverse[map[k]] == k and map[reverse[n]] == n, and the reverse map's keys are the shape names |
| `TankShapes.TankShapeChoicesMatchMap` | custom_components/domintell_ecopilot/const.py:56-65 | the choice keys are the shape names, and each choice maps to itself |
| `Text.LessIsFirstDifference` | custom_components/domintell_ecopilot/ecopilot_api/fw_update.py:171 | string `<` holds exactly when the first differing character is smaller, or the first string is a proper prefix |
| `Text.LessTransitive` | custom_components/domintell_ecopilot/ecopilot_api/fw_update.py:171 | string `<` is transitive |
| `Text.LessTrichotomy` | custom_components/domintell_ecopilot/ecopilot_api/fw_update.py:171 | of two distinct strings exactly one is smaller |
| `Text.ParseIntRoundTrip` | custom_components/domintell_ecopilot/ecopilot_api/fw_update.py:80 | `int()` applied to the decimal rendering of n gives n |
| `Text.HexRoundTrip` | custom_components/domintell_ecopilot/ecopilot_api/models.py:378 | `bytes.fromhex` of `bytes.hex` gives the bytes back |
| `Text.IsSubstringIffOccurs` | custom_components/domintell_ecopilot/ecopilot_api/models.py:102 | substring `in` holds exactly when the needle occurs at some position |

## Left out

- Real I/O is left out and becomes parameters.
  This covers the aiohttp GET and HEAD requests, `asyncio.open_connection`, the `drain` calls and the 3-second wait before sending.
  Each HTTP answer and TCP stream is a datatype argument.
  Each operation returns a trace of what it sent: the requests of the client, the URLs of the updater's GET and HEAD requests, and the socket operations of the transfer.
- The SHA-256 algorithm is the parameter `sha`, because it is not the subject of the model.
- Float arithmetic in progress values is left out. `int((n / t) * 50)` is modelled as the floor of n*50/t.
  The float and floor forms differ whenever (n/t)*50 rounds to just below an integer.
  For example, n=29 and t=50 give `int(28.999999999999996)` = 28 where the model says 29; the transfer then reports 78 where the model says 79.
  Both forms are non-decreasing in n and agree at n=0 and at n=t.
- Python `int()` on Content-Length accepts surrounding whitespace and decimal digits only. The sign, underscores and non-ASCII digits that Python also accepts are left out.
  A sign or underscore would only come from a malformed header.
- `Models.HexToReadable`: only ASCII results are decoded.
  Hex text that decodes to valid multi-byte UTF-8 is decoded by the source but returned unchanged here, because UTF-8 decoding is not modelled.
- `Text.Lower` and `Text.Upper` map ASCII letters only. Python's `str.lower`/`str.upper` also map other Unicode letters.
  This matters only for the manifest URL and the digest comparison of non-ASCII text.
- JSON and mashumaro decoding are inputs rather than modelled code.
  `Client.FetchDevice` takes the decoded device. Measurement, state, config and system bodies are returned as text.
  The decoding of token bodies is reduced to "an object with a string `token`". Mashumaro's coercions are not modelled.
  In particular, a 204 answer to `state`, `config` or `system` carries no body: the model returns `Ok(None)`, where the source's `from_json` call would fail on it.
- The backoff retry of `_request` is left out, since each call receives a single answer.
  The retry makes up to three attempts on `RequestError`.
  The SSL context, the session creation and the request lock are left out too.
- Concurrency is left out: `combined()` with `asyncio.gather`, and the lock.
- Exceptions raised by the progress callback are left out.
- `FwTransfer.SendFirmware`: closing the stream is assumed to succeed. The `finally` clause (fw_update.py:302-305) lies outside both `except` clauses, so an exception from `writer.wait_closed()` would escape unwrapped. It would replace the `TransferError` in flight, or turn a success into a failure; the model does not represent that path.
- Which network faults aiohttp reports as `aiohttp.ClientError` and which as a bare `asyncio.TimeoutError` is not modelled.
  Each download answer says which of the two happened, before the response or while the body streams.
- The Home Assistant entity, coordinator, config-flow and update-entity code is left out.
  This includes the semantic version comparison done there through AwesomeVersion, a library that is not visible.

## Findings

| source | as written | input that shows it | evidently intended | confidence | as-written member | corrected member |
|---|---|---|---|---|---|---|
| custom_components/domintell_ecopilot/ecopilot_api/fw_update.py:177 | the offered metadata keeps the full integrity string, e.g. "sha256:ab12…", which is later compared verbatim with the computed hex digest | any manifest whose integrity is "sha256:" followed by the firmware's true digest | the stripped digest that line 155 computes and then discards | high, not executed | `FwPipeline.AsWrittenUpdateNeverInstalls` | `FwPipeline.CorrectedUpdateInstalls` |
| custom_components/domintell_ecopilot/ecopilot_api/fw_update.py:225 | an absent Content-Length gives a total of 0; the transfer loop then writes nothing, yet sends end-of-stream and reports success | a verified download served without a Content-Length header (for example with chunked transfer encoding) | transfer the downloaded bytes, whose count is known | medium, not executed | `FwPipeline.MissingLengthSendsNothing` | `FwPipeline.CorrectedRunDeliversFirmware` |
