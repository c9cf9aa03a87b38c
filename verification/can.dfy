/** A received CAN frame as `can_frame_s` holds it: identifier and eight data bytes. */
module Can {

  import opened Arduino

  type FrameData = s: seq<u8> | |s| == 8 witness [0, 0, 0, 0, 0, 0, 0, 0]

  datatype CanFrame = CanFrame(id: nat, data: FrameData)
}
