# A model of iamf-rs

iamf-rs writes and parses the IAMF v1.1.0 bitstream. This project models its bit-level codec, the OBU framing,
every payload syntax, the flat sequence, the streaming writer and the encoder, as a stack in which each layer's
lemmas feed the next, and ends in one statement: whatever the encoder accepts is written in the byte format of the
standard and parses back to the descriptors that were declared and the blocks and frames that were submitted. Two more
say what it accepts: `DeclarationRules.BuildsJudged` for declarations and `RunRules.RunsJudged` for runs, both exactly.

How the model is built:

- **Bits.** A wire is a sequence of booleans. `WX(w, x)` is the writer after writing `x`, or an error; `RX(d, p)`
  is what is read at bit `p` of `d` and where the reader stands then. Every codec has two lemmas. `StepX`: what
  was just written is read back, whatever follows, and the reader stops exactly there. `AgainX`: what was read is
  written again in no more bits, and in the same bits if and only if it was minimal. `XMinimal(d, p)` looks at the
  input alone: every uleb128 that the value at `p` is decoded from takes no more bytes than it needs. These compose
  through counted lists, windows and whole sequences.
- **Imperative form.** `BitWriter`, `BitCursor`, `ParamDefinitionRegistry`, `SequenceReader`, `SequenceWriter`,
  `EncoderBuilder` and `EncodingWriter` are classes with the source's fields. Their methods, with the source's
  loops, are proved against the functions above, and the theorems are proved about those functions.
- **Independent forms.** `Formats` writes every payload out on bytes, with no bit writer in it, and `FormatWriting`
  proves that the writers write it. `BuildRules`, `DeclarationRules`, `FrameRules`, `RunRules`, `FormatRules`,
  `ProfileNumbers` and `TagShapes` state what the checks come to in the numbers of the format, without naming the
  functions that make them; `Governance` does so for the blocks of a parsed sequence, and `Carrying` for where a
  stream holds what it was given.
- **The sink** is an adversary with a finite script of partial writes, interrupts and failures.
- **Well-formedness.** The writer accepts some models that read back as something else: a reserved variant
  carrying a defined value, a typed decoder config under another codec id, gains the flags do not select, a block
  without a governing definition whose id has one, a header of another type than its payload, trailing bytes left
  inside a payload or after a frame. `SequenceObus.WellFormed` names these families, and `FlatRoundTrip` shows
  that they are exactly the ones: a written sequence reads back if and only if it is outside them.
- **Padding is lost.** A reader takes uleb128 fields of any length up to eight bytes and the writer makes them
  minimal, so parsing and writing does not always give the bytes back. `Canonicalisation` has the exact condition,
  `AllMinimal` of the input, and `PaddingIsLost` an input that fails it. A payload kept as bytes, such as that of an
  ungoverned Parameter Block, is written as it was, so nothing in it counts.

| file | what it holds |
|---|---|
| `Core`, `Bits`, `Leb128`, `Lists`, `Schedule` | widths, errors, bit and uleb128 codecs, counted lists |
| `Obu`, `Framing`, `Boundaries` | headers, size windows, the drain of trailing bytes, the structural walk |
| `ParamDefinition`, `ParameterBlock`, `SequenceHeader`, `CodecConfig`, `Layouts`, `AudioElement`, `MixPresentation`, `AudioFrame` | payload syntax |
| `BitWriter`, `BitCursor`, `PayloadWriters`, `PayloadReaders`, `SequenceIO` | the same codecs over mutable writers and cursors |
| `Format`, `FormatWriting`, `FormatRules` | the byte format and that it is what is written; codes, ceilings and headers in numbers |
| `SequenceObu`, `Sequence`, `Streams` | one OBU under a registry, whole sequences, position independence |
| `Governance` | who governs a Parameter Block of a parsed sequence, and what it then carries |
| `Sorting`, `Parts`, `Regrouping` | flattening and regrouping temporal units |
| `Streaming` | the sink and the streaming writer |
| `LanguageTag`, `Profile`, `Packing`, `TrimPlan` | the self-contained algorithms |
| `TagShapes`, `ProfileNumbers` | which short tags are well-formed; the profile rules in numbers |
| `Findings`, `Declarations`, `Builds`, `Builder` | validation, lowering and the encoder builder |
| `BuildRules`, `DeclarationRules` | what the checks of the builder let through, and which declarations build |
| `Ceiling`, `Rehearsal` | the 2 MiB ceiling of an OBU; what the rehearsal of `build` leaves `start` to find |
| `TemporalInput`, `Timeline`, `EncodingWriter` | the temporal automaton, its invariants over runs, the encoding writer |
| `FrameRules`, `RunRules`, `Carrying` | which frames, blocks and runs are accepted, and where the stream holds them |
| `EndToEnd` | the whole encoder against any sink, and back through the parser |
| `Witness` | stereo declarations of each codec that build: under every allowed trim plan they encode, so that none of this is about nothing, and at one size they build and do not start |

Two places where the code and its comments differ, and the model follows the code. The comment at
`src/encoder.rs:1349` says that every wire encoder is exercised before a sink is accepted, and that lowering only
replaces ids afterwards. But the rehearsal serialises template ids, and a lowered one may take more bytes.
`Rehearsals.StartIsTheCeiling` is what the rehearsal does promise: the only error left is that a descriptor is too
large, and the condition is exact. `Witness.StartMayFail` is a build that cannot be started, and
`Rehearsals.FewAlwaysStart` says that 128 declarations of each kind are too few for one. `EndToEnd.Encode` is
therefore about runs in which `start` and every push also succeed. `ParamDefinitionRegistry::from_descriptors` and `observe_audio_element`
return a `Result` that is never an error, and are modelled without one.

## Model

| member | source | states |
|---|---|---|
| `EndToEnd.Encode` | `src/encoder.rs:159-303` | From any declarations, against any sink script and for any inputs: if build, start, every push and finish succeed, the bytes added to the sink are those of the format, open with f8 06, "iamf" and the profile of the manifest twice, and parse to the built descriptors and then, in turn, the blocks and frames of each input as submitted; the set has no finding, and the trim plan is an allowed one |
| `EndToEnd.BuiltOpens` | `src/obu/sequence_header.rs:11-41` | Whatever the units, what is written for a build is the byte format of its OBUs, and its first eight bytes are those literals |
| `Carrying.RunCarries` | `src/encoder.rs:305-496` | The flat sequence of an accepted run: the prologue, and then, input by input with nothing between, each block as submitted and each frame under the id of its handle, with its bytes, its type code and the trims of its unit |
| `Carrying.PrologueHolds` | `src/model/mod.rs:258-299` | The prologue has every descriptor whole, by kind and ascending id, its trailing bytes behind the payload, and the presentations as listed |
| `EncodingWriters.EncodingWriter.Finish` | `src/encoder.rs:284-303` | The same for one writer after any run of pushes, with the exact errors: poisoned, an Opus plan short of its pre-skip (which is the only way an accepted run can fail to be an allowed plan), or a failed flush; and every parameter has as many ticks, every substream as many frames, as the run asks; the bytes are what the batch writer makes of the same parts |
| `EncodingWriters.EncodingWriter.PushTemporalUnit` | `src/encoder.rs:268-274` | A unit that fails any check changes neither sink nor progress; one that passes is refused, as too large and with nothing written, exactly when one of its OBUs is over the ceiling; any other is written whole, or cut short with the writer poisoned, by the sink refusing a write of this unit or by the byte counter; a poisoned writer stays so |
| `EncodingWriters.EncodingWriter.Judge` | `src/encoder.rs:305-496` | The loops of preflight compute its specification: the first failing check in source order, or the lowered unit and the next progress |
| `RunRules.RunsJudged` | `src/encoder.rs:305-496` | The language of an encoder: a run of inputs is accepted and may finish if and only if each unit has its frames and blocks by the rules in numbers, all units have blocks for the same parameters, and the trims form an allowed plan; a run that goes on, if and only if its trims may be continued to one |
| `RunRules.UnitJudged` | `src/encoder.rs:305-496` | One unit: preflight passes exactly on those rules, a trim that fits the frame and follows the ones before, and the parameters of the first unit |
| `FrameRules.FramesJudged` | `src/encoder.rs:599-650` | The frame tests pass if and only if there is one frame per declared substream, in order, behind its handle, of the codec of the encoder, and, for LPCM, of samples times bytes per sample times two channels for the coupled substreams, which come first, and one for the others |
| `FrameRules.ShapedFramesPass` | `src/encoder.rs:305-345` | Frames of that shape never fail preflight: what is left for it to refuse is the order of trims and the blocks |
| `FrameRules.LpcmFramesFill` | `src/encoder.rs:599-632` | The LPCM frames of an accepted unit for one element add up to samples times bytes per sample times the channels of its layout |
| `FrameRules.DeclaredInOrder` | `src/encoder.rs:515-526` | The declared substreams are those of the elements, once each, in order of first appearance |
| `FrameRules.BlocksObey` | `src/encoder.rs:404-455` | Each block of an accepted unit is a mix gain for the parameter of its handle, lasts one frame, and its subblocks fill it |
| `EncodingWriters.UnitBytesFit` | `src/encoder.rs:305-496` | An accepted unit has bytes under the definitions of its encoder if and only if each of its OBUs fits; otherwise the only error is that one is too large |
| `Timelines.UnitIsTheCeiling` | `src/encoder.rs:305-496` | Of all that the wire writers can refuse, the preflight leaves the ceiling alone: for frames measured by their trims, explicit id and access unit, for blocks by what they write |
| `EncodingWriters.Start` | `src/encoder.rs:159-168` | A writer is handed out only after the whole prologue is in the sink, with nothing accepted yet; a prologue that cannot be written is refused as too large with nothing in the sink; otherwise only a refused write or the byte counter stops it, after a prefix |
| `Rehearsals.StartIsTheCeiling` | `src/encoder.rs:1310-1362` | The exact content of the rehearsal: the prologue of a build can only be refused as too large, and is written if and only if each descriptor, at its rehearsed size and with what its own, codec, element, substream and parameter ids take more than those of the template, is within the ceiling; always if no id takes more |
| `Rehearsals.FewAlwaysStart` | `src/encoder.rs:1310-1362` | With at most 128 Codec Configs, elements, presentations, substreams and parameters, the prologue of every successful build can be written |
| `Witness.StartMayFail` | `src/encoder.rs:1349-1352` | The failing input: 65 stereo presentations of two gains, at a sample rate from 16384 on, build with up to 2097120 trailing bytes in the last, and the prologue is written if and only if there are at most 2097118 |
| `Timelines.RunParsesBack` | `src/encoder.rs:305-496` | For every accepted run of a built encoder, whatever its flat sequence serialises to parses back to it |
| `Timelines.RunReadsBack` | `src/encoder.rs:913-1363` | What the builder and the preflight check excludes every model that would read back as something else |
| `Timelines.RunKeeps` | `src/encoder.rs:404-496` | Invariant of every run: all units carry the duplicate-free parameter ids of the first, one frame per declared substream in order, and blocks that passed every check |
| `Timelines.CoverageIsEquality` | `src/encoder.rs:467-481` | The length-plus-membership test on duplicate-free ids is set equality |
| `Timelines.CoverageIsComplete` | `src/encoder.rs:438-481` | After n accepted units each parameter of the first unit has lasted n frames and no other has lasted at all, and each declared substream has n frames |
| `Timelines.RunTrimsAllowed` | `src/encoder.rs:284-402` | An accepted run passes the final check exactly when its trims form an allowed plan |
| `Timelines.BuiltIsReady` | `src/encoder.rs:913-1363` | A built encoder has one typed Codec Config with a non-zero frame, at least one substream, and only mix-gain definitions that last one frame |
| `TemporalInputs.UnitFacts` | `src/encoder.rs:305-496` | One accepted unit: canonical frames in declared order under one trim plan, distinct block ids, and the coverage test passed |
| `TemporalInputs.BlockLasts` | `src/encoder.rs:424-455` | A submitted block that passes lasts exactly one frame in both definition modes and has nothing the wire would drop |
| `TrimPlans.JudgesExactly` | `src/encoder.rs:340-402` | The online automaton plus the final check accept a trim plan if and only if each unit fits its frame, a start trim follows only units trimmed away whole, only the last unit has an end trim, and for Opus the start trims add up to exactly the pre-skip |
| `TrimPlans.RunIsAllowed` | `src/encoder.rs:340-402` | The same for a stream that may go on, with what each state field remembers |
| `TrimPlans.PlansConserve` | `src/obu/audio_frame.rs:258-331` | A frame plan holds exactly the total plus an end trim below one frame; it fails exactly for a zero frame or a capacity beyond 64 bits; its trims are accepted for a codec without pre-skip and keep exactly the total |
| `Builds.BuildIsSound` | `src/encoder.rs:913-1032` | Every successful build: each descriptor is its declaration, in place, with every handle in it (codec, element, substream, parameter) turned into the id the manifest gives that handle and every gain the declared one; each table of the manifest knows exactly this builder's handles, under dense ids, and no other; and validate has no finding at all on the set |
| `DeclarationRules.BuildsJudged` | `src/encoder.rs:913-1032` | The language of the builder: declarations build if and only if their gains resolve, they follow the rules, their rehearsal can be written, their ids fit and some profile holds them |
| `DeclarationRules.DeclarationsJudged` | `src/encoder.rs:1034-1362` | On resolved declarations the validation passes exactly where labels are distinct, there is one codec, every codec, gain, element and presentation follows its rule in numbers, every substream is used, there is a presentation, and the rehearsal can be written |
| `DeclarationRules.ElementChecked` | `src/encoder.rs:1108-1161` | One element: known handles, a topology that can be encoded, nothing reserved, as many distinct substreams as ids, and each shared substream with the same codec and channels everywhere |
| `DeclarationRules.MixChecked` | `src/encoder.rs:1162-1310` | One presentation: known distinct elements, distinct well-formed languages with annotations in each, one sub-mix under known rendering, with a stereo layout, and no reserved layout, repeated anchor or mismatched extension |
| `DeclarationRules.ResolvesExactly` | `src/encoder.rs:1365-1416` | Resolving succeeds if and only if each gain has a known handle, no handle is used twice and all are used |
| `BuildRules.CodecChecked` | `src/obu/codec_config.rs:455-815` | The codec check passes exactly on the literal rules of each codec, with roll distance -1 for AAC-LC, 0 for LPCM and FLAC, and for Opus -n with n the least number of frames of 3840 samples |
| `BuildRules.GainChecked` | `src/encoder.rs:1083-1107` | The gain checks pass exactly where a gain ticks once a sample and a duration of its own is one frame, filled by its subblocks |
| `BuildRules.TopologyChecked` | `src/encoder.rs:1545-1610` | The topology check passes exactly on one layer with the counts of its layout, or mono-mode ambisonics of a full order up to 14 whose mapping uses every substream |
| `BuildRules.CountsAreTheTables` | `src/model/layout.rs:130-280` | Channels, substreams and coupled substreams of every layout are those of a literal table by code |
| `BuildRules.BuildObeysTheRules` | `src/encoder.rs:1034-1162` | So every build has one codec under those rules, elements of those topologies, substreams that carry the same wherever they are shared, and gains that last one frame |
| `BuildRules.BuildPresents` | `src/encoder.rs:1162-1310` | And presentations by their rule, at least one, and distinct labels |
| `Builds.FrozenIsSound` | `src/model/mod.rs:123-225` | No finding of any descriptor, no duplicate id, every reference resolved, layouts covering layers, and silent profile findings, from the resolved declarations |
| `Builds.ManifestIsTheWire` | `src/encoder.rs:917-1013` | From the resolved declarations: the seven tables of the manifest, for handles of this builder and for any other, and the agreement of declaration, table and wire for own ids, codec, element and substream references, and parameter ids |
| `Builds.ManifestKnowsItsHandles` | `src/encoder.rs:917-973` | A handle of another builder, or one out of range, looks up to nothing in any table; a handle of this builder looks up to its place |
| `Builds.LoweredGains` | `src/encoder.rs:991-1010` | Lowering a presentation gives each gain in wire order the id of its handle, and changes nothing else about its sub-mixes but references |
| `Witness.StereoBuilds` | `src/encoder.rs:913-1032` | Non-vacuity: a stereo declaration of every Opus, AAC-LC, FLAC and LPCM configuration, with its roll distance in literals and any number of presentations, builds, to these descriptors |
| `Witness.AllowedPlansRun` | `src/encoder.rs:159-1032` | Non-vacuity, and the converse of the trim rules: for every configuration of each codec there is a built encoder that carries every allowed trim plan, with frames of the codec and a block for each of its two gains in every unit, to bytes that parse back |
| `Witness.SomePlanIsAllowed` | `src/encoder.rs:340-402` | Such plans: a pre-skip over one whole unit and part of the next, any number of untrimmed units, and an end trim |
| `Builds.RegistryIsTheHandles` | `src/encoder.rs:991-1013` | The registry of the lowered descriptors is each declared gain once, under its wire id, in wire order |
| `Builds.ResolvedKnows` | `src/encoder.rs:1365-1416` | After resolving, the gains of each presentation are the declared ones for its handles; all handles are known, none is used twice, and all are used |
| `Builds.SetGainsSets` | `src/encoder.rs:1368-1410` | Replacing the gains of a presentation replaces exactly the gains, all of them, in wire order |
| `Builds.ValidatedResolves` | `src/encoder.rs:1112-1168` | Validation leaves every handle pointing inside its list, so lowering never fails for want of one |
| `EncoderBuilders.EncoderBuilder.Build` | `src/encoder.rs:913-1032` | The in-place resolving, the validation passes and the lowering loops compute the specified result for the declarations as they were |
| `EncoderBuilders.EncoderBuilder.ResolveParameterReferences` | `src/encoder.rs:1365-1416` | In place, presentation by presentation: the resolved declarations, or the first unknown, repeated or unused handle |
| `EncoderBuilders.EncoderBuilder.Validate` | `src/encoder.rs:1034-1363` | The checks in source order, stopping at the first that fails |
| `EncoderBuilders.EncoderBuilder.AddAudioElement` | `src/encoder.rs:772-783` | One fresh labelled substream per template id, in order, and the element behind the next handle |
| `EncoderBuilders.EncoderBuilder.AddMixPresentation` | `src/encoder.rs:862-880` | One fresh labelled parameter per template gain in wire order, and the presentation behind the next handle |
| `EncoderBuilders.LowerPresentation` | `src/encoder.rs:991-1013` | The nested loops that hand out element and parameter ids give the lowered presentation |
| `EncoderBuilders.Rehearse` | `src/encoder.rs:1310-1362` | The whole-set checks, the last of them a full serialisation under template ids |
| `Streaming.WriteSequenceTo` | `src/sequence.rs:1184-1195` | Streaming refines batch: whenever the prologue, every unit and the flush succeed, the sink holds exactly the bytes of the batch writer for the flattened parts |
| `Streaming.SequenceWriter.PushTemporalUnit` | `src/sequence.rs:992-1029` | Against any sink: refused with nothing written, done whole, or a prefix out and the writer poisoned, which only a write refused during this push or a counter overflow causes; the accounting invariant ties sink, counter and whole units together |
| `Streaming.SequenceWriter.PushDescriptors` | `src/sequence.rs:957-977` | The same for the prologue, and the state errors |
| `Streaming.SequenceWriter.FlushScratch` | `src/sequence.rs:1131-1165` | The retry loop over partial writes and interrupts: everything out and counted, or a prefix out, poisoned, and the cause is the one write the sink just refused or the counter |
| `Streaming.SequenceWriter.Preflight` | `src/sequence.rs:1069-1088` | Serialising every OBU of a unit, and touching only scratch, decides exactly whether the unit can be written |
| `Streaming.SequenceWriter.Emit` | `src/sequence.rs:1118-1165` | A preflighted unit re-serialises identically, so only the sink can stop it; what is out is a prefix of the unit |
| `Streaming.SequenceWriter.Finish` | `src/sequence.rs:1051-1060` | A writer that finishes holds its sink's old content followed by the batch bytes of everything pushed; a poisoned one never finishes |
| `Streaming.WriteDescriptors` | `src/model/mod.rs:258-293` | Header, Codec Configs and Audio Elements ascending by id, presentations as listed, payload-owned trailing bytes included, is the flattened prologue |
| `Streaming.RegistryFrom` | `src/obu/param_definition.rs:159-173` | The registry a streaming writer builds is the one the wire order of the descriptors builds |
| `Streams.BatchSnoc` | `src/sequence.rs:992-1029` | One more unit written alone against the descriptors' registry is what the batch writer adds for it |
| `Streams.SeqObuBehind` | `src/sequence.rs:770-827` | An OBU is the same bytes wherever it is written |
| `Streams.PrologueRegistry` | `src/obu/param_definition.rs:106-173` | Threading the registry through the flattened prologue gives the registry of the descriptor set |
| `Streams.ElementIsSilent` | `src/sequence.rs:139-209` | Moving an element's trailing bytes from payload to OBU changes no byte written |
| `Sorting.SortedIsStable` | `src/model/mod.rs:299-303` | Ascending, keeps every item, and keeps the order of items that share an id |
| `Sequences.FlatRoundTrip` | `src/sequence.rs:756-827` | For every sequence the writer accepts, parsing its bytes gives it back if and only if it is well-formed under the registries it builds |
| `Sequences.Canonicalisation` | `src/sequence.rs:732-827` | A parsed sequence is refused by the writer exactly for the first trim flag on a non-frame, forbidden redundant copy or additional profile below the primary; otherwise the new bytes parse to the same sequence, and they are the old bytes if and only if every uleb128 decoded from those, obu_size included, took no more bytes than its value needs; if one did, the new bytes are fewer |
| `Sequences.WrittenIsMinimal` | `src/sequence.rs:770-827` | Whatever the writer makes of a well-formed sequence is minimal throughout, so writing what is parsed from it changes nothing |
| `Sequences.PaddingIsLost` | `src/obu/header.rs:301-326` | The failing input: a delimiter whose size of zero is padded to two bytes parses, and is written again in one byte fewer |
| `Sequences.PrefixParses` | `src/sequence.rs:592-727` | Wherever a reader stands, after success or failure, that is a byte position, and the input before it parses to exactly the items read so far |
| `Sequences.FailureLeavesAPrefix` | `src/sequence.rs:592-727` | Where a whole run of the reader ends, the bytes before form a sequence that parses to exactly the items yielded |
| `Sequences.ReadAdvances` | `src/sequence.rs:604-727` | Every item takes at least two bytes and the cursor never leaves the input |
| `Sequences.WriteFailsOnlyOnAnObu` | `src/sequence.rs:770-827` | The final alignment test never refuses anything |
| `SequenceObus.StepSeqObu` | `src/sequence.rs:604-827` | Any well-formed OBU the writer accepts reads back equal under the writer's registry, to its last bit |
| `SequenceObus.AgainSeqObu` | `src/sequence.rs:604-827` | Any OBU that was read is well-formed under its registry, and is refused, or written again canonically, in as many bits exactly when every uleb128 it was decoded from was minimal |
| `SequenceObus.SeqObuLocal` | `src/sequence.rs:604-708` | Reading an OBU depends only on its own bits and the registry |
| `SequenceObus.InspectionAgrees` | `src/sequence.rs:640-680` | The first look at a governed block finds the id the full parse finds |
| `FormatWriting.WritesTheFormat` | `src/sequence.rs:732-827` | What the writer makes of any sequence is the byte format of every field of every payload, written out on bytes with no bit writer in it |
| `FormatRules.HeaderRules` | `src/obu/header.rs:301-326` | Which headers may be written, by type code: redundant copies only outside 3 to 23, trims only from 5 to 23, reserved types only where no type is defined |
| `FormatRules.ObuCeiling` | `src/obu/header.rs:339-411` | With a valid header, an OBU is written if and only if all its bytes are at most 2097152 |
| `FormatRules.CodesAreTheLists` | `src/obu/header.rs:62-130` | Every OBU type and sound system has the code of its place in a literal list |
| `FormatRules.TemporalByCode` | `src/sequence.rs:428-484` | The OBUs that make up temporal units are those of type codes 3 to 23 |
| `FormatRules.AnyDecoderConfig` | `src/obu/codec_config.rs:841-896` | Any bytes make a decoder config: typed with at least 6, 38, 11 or 19 bytes of its codec, the last only as the one AAC descriptor known, and raw otherwise |
| `FormatRules.TextRule` | `src/bits/writer.rs:110-127` | A text is up to 127 bytes, none of them zero |
| `FormatRules.FixedSizeRule` | `src/bits/leb128.rs:42-69` | A fixed size is taken exactly if it is one to eight bytes of seven bits that hold the value |
| `Governance.BlocksFollowTheirOwner` | `src/obu/param_definition.rs:106-153` | In any sequence that parses, a Parameter Block carries what the first descriptor that defines its parameter says: for recon gain one entry per layer of that element, present exactly where the layer says so; for demixing a mode; for a presentation mix gains |
| `Governance.OpaqueMeansUndefined` | `src/sequence.rs:640-680` | A Parameter Block is read as one where an earlier OBU defines its parameter, and is kept as bytes where none does |
| `SequenceIO.Parse` | `src/sequence.rs:756-760` | The collecting loop yields the whole sequence or the first error |
| `SequenceIO.SequenceReader.Next` | `src/sequence.rs:714-727` | One OBU and its effect on the registry, or one error at whose OBU the cursor stays; afterwards nothing; and always the bytes before the cursor parse to exactly what has been yielded |
| `SequenceIO.SequenceReader.NextObu` | `src/sequence.rs:604-708` | Header inspected on a clone, payload syntax selected, registry extended exactly as specified |
| `SequenceIO.WriteParsedSequence` | `src/sequence.rs:770-827` | The loop over OBUs with a growing registry; nothing reaches the output unless every OBU was written |
| `SequenceIO.ParamDefinitionRegistry.ObserveAudioElement` | `src/obu/param_definition.rs:106-139` | Appends the element's definitions with their recon-gain gates, extensions left out |
| `SequenceIO.ParamDefinitionRegistry.ObserveMixPresentation` | `src/obu/param_definition.rs:142-155` | Appends each sub-mix's element gains, then its output gain |
| `ParameterBlocks.GetIsFirst` | `src/obu/param_definition.rs:177-181` | What a lookup finds is the entry with that id at the least place |
| `Parts.TemporalUnitRanges` | `src/sequence.rs:429-484` | The grouping pass over mutable state computes the specified ranges |
| `Regrouping.RangesCover` | `src/sequence.rs:428-484` | Consecutive non-empty ranges from the first temporal OBU to the end; none exactly when nothing is temporal |
| `Regrouping.UndelimitedUnits` | `src/sequence.rs:428-484` | Without delimiters each range has distinct frame ids and every block before every frame |
| `Regrouping.DelimitedUnits` | `src/sequence.rs:428-484` | With delimiters, units start exactly at the delimiters and at the first temporal OBU |
| `Regrouping.RegroupsParts` | `src/sequence.rs:139-209` | On flattened parts a unit starts where each unit starts, and nowhere else, if and only if none is empty and, where some unit is delimited, all after the first are, and where none is, each has distinct frame ids and each after the first either opens with a block after a frame was seen or has as its first frame id one of the unit before; then each range is its unit |
| `Regrouping.EncodersRegroup` | `src/sequence.rs:139-209` | Units that are all delimited, or all undelimited with one non-empty list of distinct substreams, are such units |
| `ParameterBlocks.StepParameterBlock` | `src/obu/parameter_block.rs:369-535` | Any block the writer accepts, in either mode and of any kind, reads back equal to its last bit, so no count is ever refused against the bytes left |
| `ParameterBlocks.AgainParameterBlock` | `src/obu/parameter_block.rs:369-504` | Under any registry, a block the reader accepts validates for the same definition and context, has zero gains where none are selected, and is written again canonically, in as many bits exactly when every uleb128 in it was minimal |
| `Governance.ValidExactly` | `src/obu/parameter_block.rs:543-662` | A definition and its context accept exactly the blocks of its id and mode whose data is of the kind of the context, with one subblock for demixing and recon gain, and whose subblocks fill the duration, timed where the block says so |
| `ParameterBlocks.SubblocksFill` | `src/obu/parameter_block.rs:543-723` | In a valid block of either mode the subblocks fill the duration: their own lengths add up to it, a constant length covers it with none to spare, and listed lengths have one each |
| `PayloadReaders.ReadParameterBlock` | `src/obu/parameter_block.rs:369-504` | Running sums, derived or explicit counts and gated layers over the cursor give the specified block and position |
| `PayloadWriters.WriteParameterBlock` | `src/obu/parameter_block.rs:513-541` | Validation first, then the loops, append exactly the specified bits |
| `ParamDefinitions.StepParamDefinition` | `src/obu/param_definition.rs:281-368` | A definition the writer accepts reads back equal |
| `ParamDefinitions.AgainParamDefinition` | `src/obu/param_definition.rs:281-368` | A definition that was read is written again canonically, in as many bits exactly when every uleb128 in it was minimal |
| `SequenceHeaders.AgainHeaderBody` | `src/obu/sequence_header.rs:93-130` | A header that was read is refused exactly when its additional profile is below its primary one, else written canonically |
| `CodecConfigs.StepCodecBody` | `src/obu/codec_config.rs:841-1111` | Every typed config under its own codec id, and every raw one that cannot be taken for typed, reads back equal |
| `CodecConfigs.AgainCodecBody` | `src/obu/codec_config.rs:841-1111` | A Codec Config that was read is in that form and is written again canonically, in as many bits exactly when every uleb128 in it was minimal |
| `PayloadReaders.ReadDecoderConfig` | `src/obu/codec_config.rs:841-890` | The choice between the four typed readers and the raw fallback, over the cursor |
| `AudioElements.StepElementBody` | `src/obu/audio_element.rs:495-600` | Counted ids and parameters and all three element types read back equal when reserved values are not defined ones |
| `AudioElements.AgainElementBody` | `src/obu/audio_element.rs:495-600` | An Audio Element that was read has no such value and is written again canonically, in as many bits exactly when every uleb128 in it was minimal |
| `PayloadReaders.ReadElementBody` | `src/obu/audio_element.rs:495-538` | The nested counted loops over the cursor give the specified element and position |
| `MixPresentations.StepMixBody` | `src/obu/mix_presentation.rs:608-760` | Annotations, sub-mixes, layouts and loudness with derived gates read back equal |
| `MixPresentations.AgainMixBody` | `src/obu/mix_presentation.rs:608-760` | A Mix Presentation that was read is in canonical form, its annotation counts match, and it is written again canonically, in as many bits exactly when every uleb128 in it was minimal |
| `PayloadReaders.ReadMixBody` | `src/obu/mix_presentation.rs:608-630` | Its nested counted loops over the cursor |
| `PayloadWriters.WriteMixBody` | `src/obu/mix_presentation.rs:641-657` | Annotation counts checked first, then exactly the specified bits |
| `AudioFrames.ValidUnitIff` | `src/obu/audio_frame.rs:341-366` | A unit passes exactly when all frames share one trim field and no substream appears twice |
| `AudioFrames.ValidateUnit` | `src/obu/audio_frame.rs:341-366` | The membership scan stops at the first frame that breaks either rule |
| `Lists.StepCounted` | `src/obu/audio_element.rs:601-620` | A counted list of items that read back reads back |
| `Framing.WriteObu` | `src/obu/header.rs:389-412` | Two passes: appends one whole OBU or leaves the writer unchanged |
| `Framing.OpenObu` | `src/obu/mod.rs:130-167` | Header, then a child cursor over exactly the payload window; the parent stands after the OBU |
| `Framing.Drain` | `src/obu/mod.rs:130-167` | The one drain: what the payload parser left is the trailing bytes |
| `Framing.ReadWindowed` | `src/obu/header.rs:518-549` | After-size fields are read inside the window cut to obu_size, so a short window and a short input are told apart |
| `Obus.ObuReadsBack` | `src/obu/mod.rs:130-198` | Header, payload and trailing bytes of a framed OBU read back, whatever follows |
| `Obus.ObuAgain` | `src/obu/header.rs:301-411` | Re-framing what was read is refused only for a trim flag on a non-frame or a forbidden redundant copy, and takes as many bits exactly when obu_size, the trims, the extension size and the payload were minimal, fewer otherwise |
| `Obus.WindowLocal` | `src/obu/header.rs:424-575` | An OBU is framed by its own bits alone |
| `Boundaries.FindObuBoundaries` | `src/obu/boundaries.rs:45-99` | The walk loop gives every OBU start and the end, or the first error |
| `Boundaries.BoundariesOfReader` | `src/obu/boundaries.rs:45-99` | On any input that parses, the boundaries are the reader's successive positions |
| `Boundaries.BoundariesOfWritten` | `src/obu/boundaries.rs:45-99` | Over written OBUs the boundaries are exactly the prefix sums, ending at the length |
| `Schedules.ScheduleReadsBack` | `src/bits/writer.rs:33-160` | At any bit offset, any schedule of unsigned, signed, flag and fixed or minimal uleb128 writes is read back exactly by the matching reads |
| `BitWriters.BitWriter.WriteBit` | `src/bits/writer.rs:178-194` | Bytes out, partial byte and bit offset move in step with the appended bit |
| `BitWriters.BitWriter.WriteUnsigned` | `src/bits/writer.rs:33-59` | Appends exactly the bits of the value, or refuses and leaves the writer unchanged |
| `BitWriters.BitWriter.WriteSigned` | `src/bits/writer.rs:67-93` | The same for two's complement at any width |
| `BitWriters.BitWriter.WriteUleb128Fixed` | `src/bits/leb128.rs:42-69` | The group loop appends exactly the fixed-size encoding |
| `BitWriters.BitWriter.WriteString` | `src/bits/writer.rs:110-127` | Length and interior NUL refused; else the bytes and a terminator |
| `BitWriters.BitWriter.AsBytes` | `src/bits/writer.rs:220-228` | A pending partial byte is refused, never padded; else the bytes of the bits |
| `BitCursors.BitCursor.ReadUnsigned` | `src/bits/reader.rs:100-124` | Bit by bit, the value of the next bits, or an error with nothing consumed that the specification does not consume |
| `BitCursors.BitCursor.ReadString` | `src/bits/reader.rs:167-189` | The bytes up to and with the terminator, within the limit |
| `BitCursors.BitCursor.ReadSpan` | `src/bits/reader.rs:193-225` | Whole bytes at a byte boundary, bounded before they are taken |
| `BitCursors.BitCursor.SubReader` | `src/bits/reader.rs:268-275` | A child over exactly the next bytes, the parent past them |
| `BitCursors.BitCursor.ReadUleb128` | `src/bits/leb128.rs:91-116` | The accumulating loop gives the specified value and position, or the specified error |
| `Leb128.MinimalLenIsLeast` | `src/bits/leb128.rs:24-32` | The least number of groups that can carry the value |
| `Leb128.AgainLeb` | `src/bits/leb128.rs:24-116` | A field that was read is written again in no more bytes, and unchanged exactly when it took no more bytes than its value needs |
| `Leb128.StepLebFixed` | `src/bits/leb128.rs:42-116` | Every fixed size from the minimal one to eight decodes to the value |
| `Bits.PackRoundTrip` | `src/bits/writer.rs:178-236` | Whole bytes of bits and back |
| `LanguageTags.IsWellFormedLanguageTag` | `src/model/language_tag.rs:65-119` | The forward pass returns true exactly for byte strings derivable from Language-Tag, read nondeterministically |
| `LanguageTags.GreedyIsTheGrammar` | `src/model/language_tag.rs:59-128` | Greedy recognition equals the grammar of section 2.1 of RFC 5646, including the regular grandfathered tags that have no list in the code |
| `LanguageTags.TagAgrees` | `src/model/language_tag.rs:72-118` | On lists of subtags: one pass without backtracking accepts exactly what some way of cutting the list accepts |
| `LanguageTags.RepeatedIsGreedy` | `src/model/language_tag.rs:96-110` | Where what follows cannot start with the repeated class, taking it greedily loses nothing |
| `TagShapes.OneSubtag` | `src/model/language_tag.rs:72-94` | Tags of one subtag, apart from the irregular list: two to eight letters |
| `TagShapes.TwoSubtags` | `src/model/language_tag.rs:72-118` | Of two, apart from that list: private use behind x, or a language and an extended language, script, region or variant, each by length and bytes |
| `TagShapes.ByteBetween` | `src/model/language_tag.rs:110-128` | With a single byte between, apart from that list: private use behind x, an extension behind any other letter or digit |
| `TagShapes.BehindI` | `src/model/language_tag.rs:36-59` | Behind a lone i exactly thirteen words, whatever their case |
| `TagShapes.BehindRegion` | `src/model/language_tag.rs:36-59` | Two or three letters behind a language and a region: exactly four tags |
| `LanguageTags.CaseNeverMatters` | `src/model/language_tag.rs:15-22` | Tags that differ only in ASCII case are accepted or refused together |
| `Profiles.LeastProfile` | `src/model/profile.rs:255-278` | Selection returns the least profile that meets every limit of the rule table over its own scope, and fails exactly when no profile does |
| `Profiles.SequenceFloorIsLeast` | `src/model/profile.rs:396-432` | The sequence-wide rules, stated over first bindings, are met exactly by the floor and above |
| `Profiles.PresentationFloorIsLeast` | `src/model/profile.rs:192-253` | The per-presentation rules are met exactly by the presentation's floor and above |
| `ProfileNumbers.PresentationInNumbers` | `src/model/profile.rs:192-253` | The per-presentation rules in numbers: 1, 2 or 28 elements, 16, 18 or 28 channels, and for Base at most one scene and one layered element, none expanded below Base-Enhanced |
| `ProfileNumbers.SequenceInNumbers` | `src/model/profile.rs:396-432` | The sequence-wide rules in numbers, over the first element of each id |
| `ProfileNumbers.FindingsAreExact` | `src/model/profile.rs:434-540` | There is no sequence finding exactly when the named profile allows what the sequence has, and no compliance finding exactly when each named profile has a presentation that meets it |
| `Profiles.UniqueIsFirsts` | `src/model/profile.rs:326-337` | The unique list has one entry per first binding, and counts of any kind agree |
| `Profiles.RepeatingAnIdChangesNothing` | `src/model/profile.rs:322-337` | An element that repeats an id changes neither the profile nor the error |
| `Profiles.AddingAnElementNeverLowers` | `src/model/profile.rs:255-278` | Adding an element at the end never lowers the selected profile |
| `Profiles.AddingAPresentationNeverLowers` | `src/model/profile.rs:255-278` | Adding a presentation at the end never lowers it and never mends a failure |
| `Profiles.SelectedPairIsSilent` | `src/model/profile.rs:434-540` | A header carrying the selected pair exceeds no limit of its own, and draws no compliance finding if and only if there is a presentation |
| `Profiles.SelectSequenceProfile` | `src/model/profile.rs:269-278` | The loop over presentations returns the equal pair or the first error |
| `Profiles.TotalChannels` | `src/model/profile.rs:548-561` | The checked u32 sum, with the first unsupported layout or overflow as its error |
| `Profiles.UniqueElements` | `src/model/profile.rs:326-337` | The filtering loop computes the unique list |
| `Packing.PackChannels` | `src/packing.rs:245-315` | The nested loops give the packing, or the one error exactly when the counts, the length or a source index do not fit |
| `Packing.UnpackInvertsPack` | `src/packing.rs:245-315` | An explicit unpack gives the interleaved buffer back byte for byte |
| `Packing.PackInvertsUnpack` | `src/packing.rs:245-315` | Every set of payloads of the right lengths is the packing of its own unpacking |
| `Packing.PackConserves` | `src/packing.rs:245-315` | Payload lengths are as planned and add up to the input length |
| `Packing.PlanMatchesLayout` | `src/packing.rs:142-233` | For each supported layout the plan is a bijection of channels, its counts are the layout's, and its frames carry ids 0, 1, and so on |
| `Packing.PackLayout` | `src/packing.rs:142-315` | Plan and packing together, from the buffer alone: for 5.1, at sample t, payload 0 is cells 6t and 6t+1, payload 1 cells 6t+4 and 6t+5, payloads 2 and 3 cells 6t+2 and 6t+3; for mono, stereo and binaural the one payload is the buffer; every other layout, channel count or length is the stated error |
| `Packing.ForLayout` | `src/packing.rs:151-201` | The plan loop, and the error for every layout not yet supported |

## Left out

- Error positions and messages: an error is its kind. The cursor position at a failing OBU is kept, because the reader promises it.
- Texts and counts of findings: `Findings` models when `validate()` is empty, not what it says. `ParsedSequence::validate` and `AudioFrame::validate_against_element` are not modelled.
- The process-wide builder counter: the generation is a parameter of the builder's constructor.
- Real sinks, `std::io`, panics and allocation limits: a sink is a finite script, so a loop of interrupts always ends; `bounded_vec` is a sequence.
- `usize` is unbounded except where the code checks an overflow that can happen (`PackChannels`, `PlanFrames`, byte counters, `u32` conversions).
- `src/dump.rs`, `src/fuzzing.rs`, `src/model/loudness.rs` and the command-line tools: text, generators and floating point.
- `select_minimum_profile`: the maximum of the two floors over one list, which adds nothing to `LeastProfile`.
- Constructors of canonical codec configs and definitions (`CodecConfig::opus`, `mode_1` and the like): plain data.
- TrimPlans.PlansConserve: acceptance of planned trims is stated for codecs without pre-skip, since a frame plan never has a start trim.
