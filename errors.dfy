/** The errors a ping can end with. */
module Errors {

  datatype Error =
    | SocketTimeout            // new Error('Socket timeout')
    | NoData                   // new Error('Socket has not received data')
    | Transport(code: string)  // an error reported by the socket itself
    | InvalidJson              // JSON.parse threw on the response payload
    | PortOutOfRange           // the RangeError of Buffer#writeUInt16BE
    | Undefined                // the value `undefined`, passed on where an error is expected
}
