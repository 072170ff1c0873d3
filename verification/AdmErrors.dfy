/** The error constructors of the ADM exporter and validator that the model distinguishes. */
module AdmErrors {

  datatype AdmError =
    | InvalidScene
    | StrictUnresolvedBinding
    | UnsupportedDynamicMetadata
    | NoReconstructionSignals
    | NonFiniteSample(track: nat, sample: nat)
    | SampleOutOfRange(track: nat, sample: nat, value: real)
    | SizeOverflow
    | InvalidAdmBwf
}
