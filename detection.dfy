/** The image-based variant of the commands: `cmd_add` captures one frame
    per camera, stores both as JPEG images and only then checks their
    brightness; `cmd_test` compares live frames with the stored image of the
    active mode.

    Images live in data_dir/<user>/ (no `users` segment). Writing and
    reading back a JPEG is taken to give the same frame. */
module Detection {
  import opened Configuration
  import opened Environment
  import opened Preview
  import Recognition

  const IrImage: string := "ir.jpg"
  const RgbImage: string := "rgb.jpg"

  /** The image files under the storage root. */
  type Images = map<Path, Frame>

  /** data_dir/<user>/<file> */
  function ImagePath(user: string, file: string): Path {
    DataDir + [user, file]
  }

  /** Image paths never coincide with the embedding files of the other
      variant, which sit one level deeper under `users`. */
  lemma ImagesApartFromTensors(u1: string, f1: string, u2: string, f2: string)
    ensures ImagePath(u1, f1) != Recognition.TensorPath(u2, f2)
  {
    assert |ImagePath(u1, f1)| != |Recognition.TensorPath(u2, f2)|;
  }

  /** The mode selection of `cmd_test`: the active mode's image, camera and
      thresholds. */
  function ImageParams(cfg: Config): Params {
    Select(cfg, IrImage, RgbImage)
  }

  /** `save_images`: writes the RGB image, then the IR image, and nothing
      else. */
  function SaveImages(images: Images, user: string, rgb: Frame, ir: Frame): (r: Images)
    ensures ImagePath(user, RgbImage) in r && r[ImagePath(user, RgbImage)] == rgb
    ensures ImagePath(user, IrImage) in r && r[ImagePath(user, IrImage)] == ir
    ensures r - {ImagePath(user, RgbImage), ImagePath(user, IrImage)}
         == images - {ImagePath(user, RgbImage), ImagePath(user, IrImage)}
  {
    assert ImagePath(user, RgbImage)[|DataDir| + 1] != ImagePath(user, IrImage)[|DataDir| + 1];
    images[ImagePath(user, RgbImage) := rgb][ImagePath(user, IrImage) := ir]
  }

  // ---------------------------------------------------------------------
  // cmd_add
  // ---------------------------------------------------------------------

  /** The IR grab (capture 0) and read (capture 1), then the same on RGB,
      raise no error. A grab or read that delivers no frame is not an error:
      the source ignores what `grab` returns, and such a read leaves an
      empty image. */
  predicate Captured(cfg: Config, host: Host) {
    && FrameAt(Camera(host, cfg.video.deviceIr), 0).Grabbed?
    && FrameAt(Camera(host, cfg.video.deviceRgb), 0).Grabbed?
    && FrameAt(Camera(host, cfg.video.deviceIr), 1).Grabbed?
    && FrameAt(Camera(host, cfg.video.deviceRgb), 1).Grabbed?
  }

  /** The frame kept from the IR camera. */
  function IrShot(cfg: Config, host: Host): Frame
    requires Captured(cfg, host)
  {
    FrameAt(Camera(host, cfg.video.deviceIr), 1).frame
  }

  /** The frame kept from the RGB camera. */
  function RgbShot(cfg: Config, host: Host): Frame
    requires Captured(cfg, host)
  {
    FrameAt(Camera(host, cfg.video.deviceRgb), 1).frame
  }

  /** `cmd_add`: both images are saved before any brightness check, so a
      rejected enrollment still leaves them stored. IR is checked first, and
      enrollment succeeds iff both frames are bright enough. Opening a
      camera cannot fail. */
  method CmdAdd(cfg: Config, host: Host, images: Images, user: string) returns (result: Result<()>, stored: Images)
    ensures !Captured(cfg, host) ==> result == Err(ReadFailed) && stored == images
    ensures Captured(cfg, host) ==>
      var ir := IrShot(cfg, host);
      var rgb := RgbShot(cfg, host);
      && stored == SaveImages(images, user, rgb, ir)
      && (result.Ok? <==>
            ir.brightness >= cfg.detection.minBrightnessIr && rgb.brightness >= cfg.detection.minBrightnessRgb)
      && (ir.brightness < cfg.detection.minBrightnessIr ==>
            result == Err(BrightnessTooLow(IR, ir.brightness, cfg.detection.minBrightnessIr)))
      && (ir.brightness >= cfg.detection.minBrightnessIr && rgb.brightness < cfg.detection.minBrightnessRgb ==>
            result == Err(BrightnessTooLow(RGB, rgb.brightness, cfg.detection.minBrightnessRgb)))
  {
    stored := images;
    var camRgb := Camera(host, cfg.video.deviceRgb);
    var camIr := Camera(host, cfg.video.deviceIr);
    // grab on each camera, then read on each
    if FrameAt(camIr, 0).Unreadable? || FrameAt(camRgb, 0).Unreadable? {
      return Err(ReadFailed), stored;
    }
    var readIr := FrameAt(camIr, 1);
    if readIr.Unreadable? {
      return Err(ReadFailed), stored;
    }
    var readRgb := FrameAt(camRgb, 1);
    if readRgb.Unreadable? {
      return Err(ReadFailed), stored;
    }
    var frameIr, frameRgb := readIr.frame, readRgb.frame;
    stored := SaveImages(stored, user, frameRgb, frameIr);
    if frameIr.brightness < cfg.detection.minBrightnessIr {
      return Err(BrightnessTooLow(IR, frameIr.brightness, cfg.detection.minBrightnessIr)), stored;
    }
    if frameRgb.brightness < cfg.detection.minBrightnessRgb {
      return Err(BrightnessTooLow(RGB, frameRgb.brightness, cfg.detection.minBrightnessRgb)), stored;
    }
    return Ok(()), stored;
  }

  // ---------------------------------------------------------------------
  // cmd_test
  // ---------------------------------------------------------------------

  /** The setup of `cmd_test`: the active mode's image must exist (checked
      before the model is loaded or the camera opened); then the model, the
      camera (which cannot fail), and the reference image's embedding. */
  function Prepare(cfg: Config, host: Host, images: Images, user: string, cosine: Cosine): (r: Result<Session>)
    ensures ImagePath(user, ImageParams(cfg).file) !in images ==> r == Err(UserNotFound)
    ensures ImagePath(user, ImageParams(cfg).file) in images && !host.modelLoads ==> r == Err(ModelLoadFailed)
    ensures (ImagePath(user, ImageParams(cfg).file) in images && host.modelLoads
             && images[ImagePath(user, ImageParams(cfg).file)].extraction.ExtractError?) ==> r == Err(ExtractFailed)
    ensures r.Ok? <==>
      && ImagePath(user, ImageParams(cfg).file) in images && host.modelLoads
      && images[ImagePath(user, ImageParams(cfg).file)].extraction.Extracted?
    ensures r.Ok? ==>
      r.value == Session(Camera(host, ImageParams(cfg).device),
                         images[ImagePath(user, ImageParams(cfg).file)].extraction.embedding,
                         ImageParams(cfg), cosine)
  {
    var p := ImageParams(cfg);
    var path := ImagePath(user, p.file);
    if path !in images then Err(UserNotFound)
    else if !host.modelLoads then Err(ModelLoadFailed)
    else
      var cam := Camera(host, p.device);
      match images[path].extraction
      case ExtractError => Err(ExtractFailed)
      case Extracted(e) => Ok(Session(cam, e, p, cosine))
  }

  /** `cmd_test` as the source runs it. */
  method CmdTest(cfg: Config, host: Host, images: Images, user: string, keys: seq<int>, cosine: Cosine)
    returns (result: Result<()>, verdicts: seq<Verdict>)
    ensures ImagePath(user, ImageParams(cfg).file) !in images ==> result == Err(UserNotFound) && verdicts == []
    ensures Prepare(cfg, host, images, user, cosine).Err? ==>
      result == Err(Prepare(cfg, host, images, user, cosine).error) && verdicts == []
    ensures Prepare(cfg, host, images, user, cosine).Ok? ==>
      PreviewRun(result, verdicts) == PreviewFrom(Prepare(cfg, host, images, user, cosine).value, keys, 0)
  {
    var setup := Prepare(cfg, host, images, user, cosine);
    if setup.Err? {
      return Err(setup.error), [];
    }
    result, verdicts := PreviewLoop(setup.value, keys);
  }

  /** `cmd_test` looks where `cmd_add` writes: after the images are saved,
      the existence check passes and the reference is the active mode's
      captured frame. */
  lemma TestFindsSavedImage(cfg: Config, images: Images, user: string, rgb: Frame, ir: Frame)
    ensures var saved := SaveImages(images, user, rgb, ir);
      && ImagePath(user, ImageParams(cfg).file) in saved
      && saved[ImagePath(user, ImageParams(cfg).file)] == if cfg.video.mode == IR then ir else rgb
  {
  }
}
