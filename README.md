# eyMate face authentication: a Dafny model of the decision logic

eyMate unlocks PAM logins with a face check. A user is enrolled by capturing
camera frames, embedding them with a face model and storing the embedding (or,
in the older image-based variant, the raw images). At login the PAM hook runs
`cmd_auth`, which reads up to `retries` frames from the active camera (IR or
RGB) and accepts the first frame that is similar enough to the stored
reference and bright enough. `cmd_test` is the interactive version: it reports
a verdict for every frame until ESC is pressed.

This project models the attempt and decision policy of these commands, with
the camera, the face model, the similarity computation and the filesystem
replaced by scripted inputs:

- a camera is the sequence of captures it delivers (`Environment.Capture`):
  a read that raises an error, or a frame with its brightness and its
  embedding (or an extraction failure);
- as in OpenCV, opening a camera never fails. A device that does not open
  gives a handle whose reads deliver no frame, and so does a camera once its
  script is used up. Such a read is not an error. It leaves an empty image,
  whose mean brightness is 0 and which `process_image` cannot resize, so its
  extraction fails (`Environment.Blank`);
- the cosine similarity is an opaque function supplied by the caller. Its
  result is a `Score`: a real number or NaN, with IEEE comparison semantics;
- the host says whether the face model loads and which camera devices open;
- files are a map from paths (sequences of segments) to embeddings or frames;
- beside its result, `CmdAuth` returns the number of frames it read and
  `Recognition.CmdAdd` the store it leaves and the frames each loop read;
  both `CmdTest`s return the verdicts they printed, and `Detection.CmdAdd`
  returns the images it leaves.

Modules: `Configuration` (config.rs types and the per-mode selection),
`Environment` (the scripted world and the error values), `Preview` (the
`cmd_test` loop, identical in both source files), `Recognition`
(src/recognition.rs), `Detection` (src/detection.rs), `Pamsm` (the PAM library
types), `PamService` (pam/src/lib.rs) and `PamVariant` (src/pam.rs).

The stateful commands are methods. The three loops (`CmdAuth`, `EnrollLoop`,
`PreviewLoop`) are proved equal to the specification functions `Auth`,
`EnrollFrom` and `PreviewFrom`, and `Recognition.CmdAdd` is proved equal to
`Add`; the lemmas state the source's behaviour about those functions.
`Detection.CmdAdd`, which has no loop, states its result and the files it
leaves directly.

Behaviour the model keeps exactly as the code has it, although a reader might
expect otherwise:

- `cmd_auth` rejects only when `similarity < min_similarity`, so a similarity
  equal to the threshold is accepted. `cmd_test` requires
  `similarity > min_similarity` and reports the same frame as no match.
- A NaN similarity passes `cmd_auth`'s test, so a bright enough frame is
  accepted. `cmd_test` reports it as no match.
- `cmd_add` never breaks out of its loops; only a read or extraction error
  ends one early. Every bright frame overwrites the stored embedding, so the
  last bright frame wins.
- An extraction failure aborts `cmd_auth` with an error. It does not count as
  a failed attempt.
- pam/src/lib.rs reports a verification error as AUTH_ERR but panics on a
  user name that is not UTF-8. src/pam.rs verifies such a name as `"_"` and
  panics on a verification error.

## Model

| member | source | states |
|---|---|---|
| `Configuration.Select` | src/recognition.rs:208-226 | IR mode selects the IR file, the IR device and both IR thresholds; RGB mode selects all four RGB counterparts |
| `Recognition.ModeParams` | src/recognition.rs:148-166 | `Select` with `ir.bin`/`rgb.bin` as the files, as `cmd_test` and `cmd_auth` choose them (no contract of its own; `Select` states it) |
| `Detection.ImageParams` | src/detection.rs:114-132 | `Select` with `ir.jpg`/`rgb.jpg` as the files: the image, device and both thresholds of the active mode (no contract of its own; `Select` states it) |
| `Environment.Camera` | src/recognition.rs:231 | `VideoCapture::new` never fails: a device that opens delivers its script, and a device that does not open delivers no frame on any read (an empty image, brightness 0, no embedding) |
| `Configuration.SelectReadsOnlyActiveMode` | src/recognition.rs:148-166 | the selection depends only on the active mode's own settings |
| `Recognition.SaveTensor` | src/recognition.rs:53-63 | the user's file holds the saved embedding afterwards; every other file is as it was |
| `Recognition.LoadTensor` | src/recognition.rs:65-70 | success iff data_dir/users/<user>/<file> exists, with its content; otherwise an error naming that path |
| `Recognition.DirExists` | src/recognition.rs:144 | `Path::exists` on a directory: some stored file lies below it (no contract of its own; `SaveCreatesUserDir` and `TestAfterPartialEnrollment` state what it means for the commands) |
| `Recognition.TensorPathInjective` | src/recognition.rs:53-57 | data_dir/users/<user>/<file> is distinct for distinct (user, file) pairs |
| `Recognition.LoadAfterSave` | src/recognition.rs:53-70 | `load_tensor` after `save_tensor` of the same key returns the saved embedding; a save leaves every other key's load unchanged |
| `Recognition.SaveCreatesUserDir` | src/recognition.rs:54-55 | after a save, the user's directory exists |
| `Recognition.Prepare` | src/recognition.rs:228-234 | the model load comes first, and its failure is the error; opening the camera cannot fail; then a missing reference is the error; success iff the model loads and the reference exists, yielding the active camera, the stored reference and the mode's parameters |
| `Recognition.Judge` | src/recognition.rs:237-258 | a read or extraction failure aborts the run, each with its own error; a frame is accepted iff it is bright enough and its similarity is at least the threshold or NaN; an embedded frame that fails either test is rejected, and the loop goes on |
| `Recognition.AuthFrom` | src/recognition.rs:236-262 | the attempt loop from attempt i: it reads between i and `retries` frames, and all of them when it returns false; `AuthStopsAtFirstDecisive`, `AuthFalseIffAllRejected` and `AuthAcceptsFirstMatch` characterise it |
| `Recognition.AuthStopsAtFirstDecisive` | src/recognition.rs:236-262 | at most `retries` frames are read; every frame before the last one read was rejected; the last frame read decides the result; the run stops early only on an accept or an abort |
| `Recognition.AuthFalseIffAllRejected` | src/recognition.rs:248-262 | the result is `Ok(false)` (not an error) exactly when all `retries` attempts were rejected, and then all `retries` frames were read |
| `Recognition.AuthAcceptsFirstMatch` | src/recognition.rs:248-257 | the first frame that passes both tests, after only rejections, gives `Ok(true)` with exactly that many frames read |
| `Recognition.AuthIgnoresUnreadFrames` | src/recognition.rs:256-257 | frames after the deciding one have no effect: none of them is read |
| `Recognition.Auth` | src/recognition.rs:204-263 | at most `retries` frames are read; a setup failure (model, missing reference) returns `Err` before any read; `retries = 0` gives `Ok(false)` with no read |
| `Recognition.AuthUsesNewestReference` | src/recognition.rs:234 | after re-enrolling the active mode's file, verification depends only on the new embedding |
| `Recognition.CmdAuth` | src/recognition.rs:204-263 | the loop returns exactly the result and read count of `Auth` |
| `Recognition.AuthWithoutCamera` | src/recognition.rs:231-244 | with a camera that did not open: a missing reference is reported as missing; with no attempts the run returns false; otherwise the first read's empty frame cannot be embedded, and the run fails with that error after 1 read |
| `Recognition.ThresholdTieSplitsAuthAndTest` | src/recognition.rs:248-257 | at a similarity equal to the threshold, `cmd_auth` accepts a bright frame while `cmd_test` says "no match" |
| `Recognition.NaNSimilarityAccepted` | src/recognition.rs:248-257 | a NaN similarity on a bright frame is accepted by `cmd_auth` and is "no match" for `cmd_test` |
| `Recognition.AuthScenarioDarkThenMatch` | src/recognition.rs:236-258 | with brightness 5, 15, 15 and similarity 0.95, 0.95, 0.80 against 0.9/10, the run accepts after 2 reads |
| `Recognition.AuthScenarioNoMatch` | src/recognition.rs:236-262 | with bright frames of similarity 0.5, 0.6, 0.7 against 0.9, the run returns `Ok(false)` after 3 reads |
| `Recognition.LastBright` | src/recognition.rs:94-99 | the last frame in a range that meets the minimum brightness, or none if no frame in the range does |
| `Recognition.EnrollStep` | src/recognition.rs:89-100 | one pass reads one frame; it fails iff the frame raises a read error or is bright with a failed extraction; a bright embedded frame overwrites the loop's file and sets `found`; `brightness` becomes the frame's |
| `Recognition.EnrollFrom` | src/recognition.rs:88-101 | the loop from pass i reads at most `retries - i` frames, and exactly that many when no error ends it; an error already recorded stops it; `EnrollCompletes`, `EnrollTouchesOnlyKey` and `EnrollFailsAtFirstBadFrame` characterise it |
| `Recognition.EnrollCompletes` | src/recognition.rs:88-101 | without read or extraction failures, a mode loop reads exactly `retries` frames; it finds a frame iff one was bright; the stored file holds the last bright frame's embedding; `brightness` is the last frame's |
| `Recognition.EnrollTouchesOnlyKey` | src/recognition.rs:97-98 | a mode loop writes no file except its own |
| `Recognition.EnrollFailsAtFirstBadFrame` | src/recognition.rs:89-97 | a mode loop fails iff some frame is unreadable, or is bright with a failed extraction; it stops at the first such frame, with the matching error |
| `Recognition.EnrollLoop` | src/recognition.rs:85-101 | the loop computes exactly `EnrollFrom`: found flag, last brightness, store, frames read, failure |
| `Recognition.Add` | src/recognition.rs:73-138 | `cmd_add` writes only the user's two embedding files; opening the cameras cannot fail; a model that does not load gives that error, changes nothing and reads nothing |
| `Recognition.AddIrTooDark` | src/recognition.rs:86-108 | with no bright IR frame, the error carries the last IR frame's brightness (0.0 when `retries = 0`); all `retries` IR frames are read, the RGB loop never runs and the store is unchanged |
| `Recognition.AddRgbTooDarkKeepsIr` | src/recognition.rs:110-133 | IR success followed by an RGB failure returns the RGB brightness error and leaves `ir.bin` holding the last bright IR embedding |
| `Recognition.AddStoresLastBright` | src/recognition.rs:88-137 | when both loops find a bright frame, `cmd_add` succeeds after `retries` reads per camera, and each file holds its camera's last bright embedding |
| `Recognition.AddWithoutIrCamera` | src/recognition.rs:75-108 | with an IR camera that did not open, the store is unchanged and: against a positive IR minimum (or with `retries = 0`) all `retries` empty frames are too dark and the run fails on IR brightness 0.0; otherwise the first empty frame counts as bright, its extraction fails, and the run stops after 1 read |
| `Recognition.CmdAdd` | src/recognition.rs:73-138 | the method returns exactly the result, store and read counts of `Add` |
| `Recognition.CmdTest` | src/recognition.rs:141-201 | a missing user directory gives "user not found" before any setup; then `cmd_auth`'s setup errors; then the interactive loop |
| `Recognition.TestAfterPartialEnrollment` | src/recognition.rs:142-174 | after an enrollment that stored only `ir.bin`, an RGB-mode check passes the directory test and fails on the missing `rgb.bin` |
| `Preview.Classify` | src/recognition.rs:192-198 | "too dark" iff the brightness is below the minimum, whatever the similarity; "match" iff bright enough and the similarity is finite and strictly above the threshold |
| `Preview.PreviewFrom` | src/recognition.rs:176-199 | the loop from key poll i gives a verdict only on frames the camera delivered; `PreviewOutcome` characterises it |
| `Preview.PreviewOutcome` | src/recognition.rs:176-199 | the loop stops only where ESC (27) is polled or the frame cannot be read or embedded; it ends normally iff ESC is polled there, and with a read or extraction error iff the frame fails that way; every earlier frame got its own verdict |
| `Preview.PreviewLoop` | src/detection.rs:146-169 | the loop returns exactly the result and verdicts of `PreviewFrom` |
| `Detection.ImagesApartFromTensors` | src/detection.rs:52-57 | images live under data_dir/<user>, with no `users` segment, so they never collide with embedding files |
| `Detection.SaveImages` | src/detection.rs:52-64 | `rgb.jpg` and `ir.jpg` are stored under data_dir/<user>, and no other file changes |
| `Detection.CmdAdd` | src/detection.rs:66-109 | opening the cameras cannot fail and the result of `grab` is ignored; a grab or read that raises an error fails the run with nothing saved; otherwise one frame is kept per camera, both images are saved before any brightness check (so a rejected enrollment still stores them), IR brightness is checked first, and the run succeeds iff both frames are bright enough |
| `Detection.Prepare` | src/detection.rs:111-144 | a missing reference image gives "user not found" before the model is loaded or the camera opened; then a model that does not load, then a reference image that cannot be embedded, is the error; opening the camera cannot fail; success iff the image exists, the model loads and the image embeds, yielding that embedding, the active camera and the mode's thresholds |
| `Detection.CmdTest` | src/detection.rs:111-171 | setup errors end the run with no verdicts; otherwise the result and verdicts are those of the interactive loop |
| `Detection.TestFindsSavedImage` | src/detection.rs:112-117 | `cmd_test` reads the image that `cmd_add` wrote for the active mode |
| `PamService.Auth` | pam/src/lib.rs:9-30 | no user gives USER_UNKNOWN; a lookup error is returned unchanged; a non-UTF-8 name panics; SUCCESS iff `cmd_auth` returned `Ok(true)`, and `Ok(false)` or `Err` give AUTH_ERR |
| `PamService.OpenSession` | pam/src/lib.rs:33-35 | delegates to `auth` (no contract of its own; `HooksAgree` states it) |
| `PamService.Authenticate` | pam/src/lib.rs:37-39 | delegates to `auth` (no contract of its own; `HooksAgree` states it) |
| `PamService.CloseSession` | pam/src/lib.rs:41-43 | always IGNORE (no contract of its own; `HooksAgree` states it) |
| `PamService.SetCred` | pam/src/lib.rs:45-47 | always IGNORE (no contract of its own; `HooksAgree` states it) |
| `PamService.AcctMgmt` | pam/src/lib.rs:49-51 | always IGNORE (no contract of its own; `HooksAgree` states it) |
| `PamService.ChAuthTok` | pam/src/lib.rs:53-55 | always IGNORE (no contract of its own; `HooksAgree` states it) |
| `PamService.AuthWithRecognition` | pam/src/lib.rs:18 | `auth` with the model of `cmd_auth` as the verifier (no contract of its own; `SuccessNeedsAcceptedFrame` states what SUCCESS then implies) |
| `PamService.NoUserSkipsVerification` | pam/src/lib.rs:10-14 | without a user name, the outcome does not depend on `cmd_auth`, which is never called |
| `PamService.HooksAgree` | pam/src/lib.rs:33-55 | `open_session` and `authenticate` agree on every input; the other four hooks always return IGNORE |
| `PamService.SuccessNeedsAcceptedFrame` | pam/src/lib.rs:18-29 | with the model of `cmd_auth` plugged in, SUCCESS implies that the reference loaded and that some frame among the first `retries` was accepted after only rejections |
| `PamVariant.NameOrPlaceholder` | src/pam.rs:22 | the user name as text, or `"_"` when it is not UTF-8 (no contract of its own; `NonUtf8VerifiedAsPlaceholder` states its effect) |
| `PamVariant.Authenticate` | src/pam.rs:13-35 | no user gives USER_UNKNOWN and a lookup error is returned unchanged; SUCCESS iff verification under the name (or `"_"`) returned `Ok(true)`; `Ok(false)` gives AUTH_ERR; a panic iff it returned `Err` |
| `PamVariant.NonUtf8VerifiedAsPlaceholder` | src/pam.rs:22 | a non-UTF-8 user is let in exactly when the user `"_"` would be |
| `PamVariant.AgreesWithService` | src/pam.rs:24-25 | the two PAM modules agree except on a verification error (panic here, AUTH_ERR there) and on a non-UTF-8 name |

## Left out

- Cosine similarity, `process_image` (resize and inference) and the brightness mean are floating-point or foreign-library computations. Each frame supplies its brightness and its embedding (or an extraction failure), and the similarity is an opaque function.
- Floating-point rounding is not modelled: thresholds and brightness are reals. Only the similarity can be NaN.
- Loading the configuration file inside `cmd_auth` (Figment/TOML) is not modelled. The configuration is an input, and `retries`, which the configuration record of src/config.rs lacks, is a parameter.
- Failures of filesystem writes and reads are not modelled: `create_dir_all`, `tensor.save`, `imwrite`, a corrupt `Tensor::load`, a failing `imread`. Saves always succeed.
- `get_data_file`'s failure on a path that is not valid UTF-8 is not modelled; it cannot happen for the `&str` user names the commands receive.
- User names are single path segments. Names that `Path::join` treats specially (empty, containing `/`, absolute, `..`) are not modelled.
- A JPEG written by `imwrite` and read back by `imread` is taken to be the same frame.
- Detection.CmdAdd: an empty image (from a camera that delivered no frame) is saved like any other; `imwrite`'s refusal of an empty image is not modelled, as no write failure is.
- Two handles opened on the same device index each replay that device's script from its start.
- `cmd_test` in the source runs forever if ESC never arrives and the camera keeps delivering. Here the camera script is finite, so such a session ends on the first empty frame after the script, whose extraction fails.
- Failures of `wait_key` and `imshow`, the preview window, `thread::sleep` pacing and every `println!` are left out (UI and timing).
- The model file of detection.rs's `cmd_test` (`./vggface2.pt`) and of recognition.rs (`data_dir/vggface2.pt`) load or fail together, through one flag.
- src/paths.rs and recognition/src/paths.rs (directory creation, permissions, default config), cli/src/main.rs and src/main.rs (argument parsing and dispatch) and build_model.py (model export) are not part of this model.
- The pamsm library's default implementations of the hooks that src/pam.rs does not implement are not part of this model.
