/** The exceptions of the plugin that the model keeps. */
module Errors {

  datatype Error =
    | UnknownVoice       // KeyError: (locale, voice) is not in the voice catalog
    | MalformedSelector  // ValueError: a selector with more than one '#' does not unpack into two names
    | HeaderOverflow     // struct.error: a header value does not fit its 32-bit field
}
