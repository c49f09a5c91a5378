// The kernel's input events, as the sensor drivers read them.
module InputEvents {

  datatype InputEvent = InputEvent(evType: int, code: int, value: int)

  const EV_SYN := 0
  const EV_REL := 2
  const EV_ABS := 3
}
