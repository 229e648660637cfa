/** The configuration record read from `config.toml` and the per-mode
    parameter selection that every command performs on it.

    Loading the configuration (Figment over TOML) is not modelled: every
    command takes an already parsed `Config`. */
module Configuration {

  /** Which camera and which threshold set is active. */
  datatype Mode = RGB | IR

  datatype Video = Video(mode: Mode, deviceRgb: int, deviceIr: int)

  /** Thresholds, one pair per camera. The attempt budget (`retries`) that the
      commands read is not a field of this record in the source; the commands
      take it as a separate parameter. */
  datatype Detection = Detection(
    minSimilarityRgb: real,
    minSimilarityIr: real,
    minBrightnessIr: real,
    minBrightnessRgb: real)

  datatype Config = Config(video: Video, detection: Detection)

  /** What a command derives from the active mode: the reference file to use,
      the camera device, and the two thresholds. */
  datatype Params = Params(file: string, device: int, minSimilarity: real, minBrightness: real)

  /** The four separate `match` expressions on the mode, each picking one
      parameter. They agree: every parameter comes from the active mode's set. */
  function Select(cfg: Config, irFile: string, rgbFile: string): (p: Params)
    ensures cfg.video.mode == IR ==>
      p == Params(irFile, cfg.video.deviceIr, cfg.detection.minSimilarityIr, cfg.detection.minBrightnessIr)
    ensures cfg.video.mode == RGB ==>
      p == Params(rgbFile, cfg.video.deviceRgb, cfg.detection.minSimilarityRgb, cfg.detection.minBrightnessRgb)
  {
    Params(
      match cfg.video.mode
      case IR => irFile
      case RGB => rgbFile,
      match cfg.video.mode
      case IR => cfg.video.deviceIr
      case RGB => cfg.video.deviceRgb,
      match cfg.video.mode
      case IR => cfg.detection.minSimilarityIr
      case RGB => cfg.detection.minSimilarityRgb,
      match cfg.video.mode
      case IR => cfg.detection.minBrightnessIr
      case RGB => cfg.detection.minBrightnessRgb)
  }

  /** The selection reads nothing but the active mode's own settings: two
      configurations that agree on those select the same parameters. */
  lemma SelectReadsOnlyActiveMode(c1: Config, c2: Config, irFile: string, rgbFile: string)
    requires c1.video.mode == c2.video.mode
    requires c1.video.mode == IR ==>
      c1.video.deviceIr == c2.video.deviceIr
      && c1.detection.minSimilarityIr == c2.detection.minSimilarityIr
      && c1.detection.minBrightnessIr == c2.detection.minBrightnessIr
    requires c1.video.mode == RGB ==>
      c1.video.deviceRgb == c2.video.deviceRgb
      && c1.detection.minSimilarityRgb == c2.detection.minSimilarityRgb
      && c1.detection.minBrightnessRgb == c2.detection.minBrightnessRgb
    ensures Select(c1, irFile, rgbFile) == Select(c2, irFile, rgbFile)
  {
  }
}
