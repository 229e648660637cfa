/** What the commands see of the world outside them: cameras, the face
    model, the filesystem layout and the error values they return.

    Cameras and the face model are scripted. A camera is the sequence of
    captures it will deliver; a captured frame carries the brightness that
    `core::mean` gives for it and what `process_image` (resize plus
    inference) makes of it. The cosine similarity between two embeddings is
    an opaque function supplied by the caller.

    As with OpenCV, opening a device never fails: a device that cannot be
    opened yields a handle whose reads deliver no frame, and the same holds
    for a camera once its script is used up. A read that delivers no frame
    is not an error; it leaves an empty image, whose mean is 0 and which
    `process_image` cannot resize. */
module Environment {
  import opened Configuration

  datatype Option<T> = None | Some(value: T)

  /** A face embedding. The decision logic never looks inside one. */
  type Embedding = seq<real>

  /** A filesystem path, as its sequence of segments below the root. */
  type Path = seq<string>

  /** `get_data_dir()`: /usr/share/eymate/ */
  const DataDir: Path := ["usr", "share", "eymate"]

  /** A similarity score as an IEEE double: a number or NaN. Every ordered
      comparison with NaN is false. */
  datatype Score = Finite(value: real) | NaN {
    /** `score < t` */
    predicate Below(t: real) {
      Finite? && value < t
    }
    /** `score > t` */
    predicate Above(t: real) {
      Finite? && value > t
    }
  }

  /** The cosine similarity of two embeddings (floating-point tensor
      arithmetic, not modelled). */
  type Cosine = (Embedding, Embedding) -> Score

  /** The outcome of `process_image` on a frame. */
  datatype Extraction = ExtractError | Extracted(embedding: Embedding)

  /** A captured frame: its mean brightness and its embedding. */
  datatype Frame = Frame(brightness: real, extraction: Extraction)

  /** One `cam.read` (or `grab`): an error, or a frame. */
  datatype Capture = Unreadable | Grabbed(frame: Frame)

  /** What a read that delivers no frame leaves: an empty image, with mean
      brightness 0 and no embedding. */
  const Blank: Capture := Grabbed(Frame(0.0, ExtractError))

  /** The i-th capture of a camera script; once the script is used up the
      camera delivers no frame. */
  function FrameAt(script: seq<Capture>, i: nat): Capture {
    if i < |script| then script[i] else Blank
  }

  /** A capture whose frame was read and turned into an embedding. */
  predicate Usable(c: Capture) {
    c.Grabbed? && c.frame.extraction.Extracted?
  }

  /** The key code of ESC, which ends the interactive loops. */
  const Esc: int := 27

  /** What `wait_key` returns when no key was pressed. */
  const NoKey: int := -1

  /** The i-th poll of the keyboard; after the scripted keys, no key. */
  function KeyAt(keys: seq<int>, i: nat): int {
    if i < |keys| then keys[i] else NoKey
  }

  /** The host: whether the face model file loads, and for each camera
      device index that opens, the captures it delivers. */
  datatype Host = Host(modelLoads: bool, cameras: map<int, seq<Capture>>)

  /** `VideoCapture::new(device)`: the script of a device that opens; a
      device that does not open delivers no frame at all. */
  function Camera(host: Host, device: int): (script: seq<Capture>)
    ensures device in host.cameras ==> script == host.cameras[device]
    ensures device !in host.cameras ==> forall i: nat :: FrameAt(script, i) == Blank
  {
    if device in host.cameras then host.cameras[device] else []
  }

  /** The failures the commands report (anyhow errors in the source). */
  datatype Error =
    | ModelLoadFailed
    | ReadFailed
    | ExtractFailed
    | ReferenceMissing(path: Path)
    | UserNotFound
    | BrightnessTooLow(mode: Mode, brightness: real, minimum: real)

  datatype Result<T> = Ok(value: T) | Err(error: Error)

  /** Everything a verification loop works with once it is set up: the
      camera's captures, the loaded reference embedding, the active mode's
      parameters and the similarity function. */
  datatype Session = Session(frames: seq<Capture>, reference: Embedding, params: Params, cosine: Cosine)

  /** The similarity of a frame's embedding to the session's reference. */
  function Similarity(s: Session, f: Frame): Score
    requires f.extraction.Extracted?
  {
    s.cosine(s.reference, f.extraction.embedding)
  }
}
