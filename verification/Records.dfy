/** The logger's status, and the queued descriptor data_t with the addresses and callbacks it may carry. */
module Records {
  datatype Status = Uninitialized | Idle | Running

  /** Static objects the producers lend to the logger, told apart by name; every other address is a number. */
  datatype Pointer = RxMessage | AnalogBuffer(sample: nat) | Elsewhere(address: nat)

  /** NoCallback is the null pointer; CanWritten is write_callback of can_channel.c, private to that file. */
  datatype Callback = NoCallback | CanWritten | OtherCallback(code: nat)

  datatype Record = Record(data: Pointer, size: nat, id: nat, callback: Callback)
}
