/** Integer widths, error kinds and the two result types shared by every module. */
module Core {
  type u8 = x: int | 0 <= x < 0x100
  type u16 = x: int | 0 <= x < 0x1_0000
  type u32 = x: int | 0 <= x < 0x1_0000_0000
  type u64 = x: int | 0 <= x < 0x1_0000_0000_0000_0000
  type i16 = x: int | -0x8000 <= x < 0x8000

  const U32_LIMIT := 0x1_0000_0000
  const U64_LIMIT := 0x1_0000_0000_0000_0000

  /** The error kinds of `ErrorKind`; positions and messages are not modelled. */
  datatype Error =
    | UnexpectedEndOfInput
    | NotByteAligned
    | UnsupportedWidth
    | ValueExceedsWidth
    | Leb128TooLong
    | Leb128ValueTooLarge
    | Leb128SizeInvalid
    | StringNotTerminated
    | StringTooLong
    | StringHasInteriorNul
    | ObuSizeOverflow
    | ObuTooLarge
    | TruncatedObu
    | RedundantCopyNotAllowed
    | TrimmingFlagNotAllowed
    | ReservedAliasesDefinedValue
    | GatedFieldMismatch
    | AdditionalProfileBelowPrimary
    | NotAnAudioFrame
    | SubstreamIdMismatch
    | ZeroSamplesPerFrame
    | FramePlanOverflow
    | TemporalUnitTrimMismatch
    | DuplicateSubstreamId
    | NoGoverningParamDefinition
    | ParameterIdMismatch
    | ParameterModeMismatch
    | UnsupportedParameterData
    | SubblockDurationMismatch
    | SubblockCountNotOne
    | AnnotationCountMismatch
    | ChannelCountMismatch
    | CoupledSubstreamCountMismatch
    | UnsupportedLayout
    | ChannelCountExceedsProfile
    | ElementCountExceedsProfile
    | SubMixCountNotOne
    | ReservedHeadphonesRenderingMode
    | InvalidDescriptorReference
    | DescriptorsNotWritten
    | DescriptorsAlreadyWritten
    | SinkWrite
    | SequenceWriterPoisoned
    | UnknownCodecConfigHandle
    | UnknownAudioElementHandle
    | UnknownSubstreamHandle
    | UnknownParameterHandle
    | DuplicateDeclaration
    | MultipleCodecConfigs
    | NoMixPresentation
    | ParameterRateMismatch
    | ParameterBlockDurationMismatch
    | DuplicateMixPresentationAudioElement
    | DuplicateAnnotationsLanguage
    | AnnotationsLanguageNotWellFormed
    | DuplicateAnchorElement
    | WireIdAllocationExhausted
    | DuplicateTemporalSubstream
    | MissingTemporalSubstream
    | TemporalSubstreamOrderMismatch
    | UnknownTemporalSubstreamHandle
    | UnknownTemporalParameterHandle
    | DuplicateTemporalParameterBlock
    | ParameterSubstreamCoverageMismatch
    | FrameCodecMismatch
    | LpcmFrameByteAlignment
    | LpcmFrameSampleCountMismatch
    | TemporalUnitAfterEndTrim
    | StartTrimAfterUntrimmedAudio
    | OpusStartTrimExceedsPreSkip
    | OpusStartTrimShortOfPreSkip

  datatype Option<+T> = None | Some(value: T)

  datatype Result<+T> = Ok(value: T) | Err(error: Error) {
    predicate IsFailure() {
      Err?
    }

    function PropagateFailure<U>(): Result<U>
      requires Err?
    {
      Err(error)
    }

    function Extract(): T
      requires Ok?
    {
      value
    }
  }

  predicate Distinct<T(==)>(s: seq<T>) {
    forall i, j | 0 <= i < j < |s| :: s[i] != s[j]
  }
}
