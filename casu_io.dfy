/** What a controller asks of its CASU (the robot with heater, LEDs, IR sensors
    and a message radio), recorded as values instead of performed. */
module CasuIo {
  import opened Wrappers

  datatype Command =
    /** `set_temp(t)`: heat or cool the peltier element towards `t`. */
    | SetTemp(t: real)
    /** `temp_standby()`: switch the peltier element off. */
    | TempStandby
    /** `set_diagnostic_led_rgb(...)`; `None` marks an argument left to its default. */
    | Led(r: Option<real>, g: Option<real>, b: Option<real>)
    /** `send_message(dest, str(value))`; the number's text formatting is not modelled. */
    | SendValue(dest: Option<string>, value: real)
    /** `stop()`: release the CASU. */
    | StopCasu
}
